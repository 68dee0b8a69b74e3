/** formatNum (service/notification/service.go): thousands separated by dots. */
module FormatNum {
  import opened Numerals

  /** The first i characters of s, each preceded by a dot when a positive multiple of three remains. */
  function Dotted(s: string, i: nat): string
    requires i <= |s|
  {
    if i == 0 then ""
    else Dotted(s, i - 1) + (if i > 1 && (|s| - (i - 1)) % 3 == 0 then "." else "") + [s[i - 1]]
  }

  function Formatted(n: nat): string {
    if n < 1000 then Decimal(n) else Dotted(Decimal(n), |Decimal(n)|)
  }

  /** The loop of formatNum; a negative count prints with its sign and no dots. */
  method FormatNumber(n: int) returns (out: string)
    ensures out == if n >= 0 then Formatted(n) else "-" + Decimal(-n)
  {
    if n < 1000 {
      out := if n < 0 then "-" + Decimal(-n) else Decimal(n);
      return;
    }
    var s := Decimal(n);
    out := [];
    for i := 0 to |s|
      invariant out == Dotted(s, i)
    {
      if i > 0 && (|s| - i) % 3 == 0 {
        out := out + ['.'];
      }
      out := out + [s[i]];
    }
  }

  // ---------------------------------------------------------------- a faithful printer

  function Undotted(s: string): string {
    if s == [] then [] else Undotted(s[..|s| - 1]) + if s[|s| - 1] == '.' then [] else [s[|s| - 1]]
  }

  lemma {:induction false} UndottedAppend(s: string, t: string)
    ensures Undotted(s + t) == Undotted(s) + Undotted(t)
  {
    if t == [] {
      assert s + t == s;
    } else {
      assert (s + t)[..|s + t| - 1] == s + t[..|t| - 1];
      UndottedAppend(s, t[..|t| - 1]);
    }
  }

  lemma {:induction false} UndottedDigits(s: string)
    requires AllDigits(s)
    ensures Undotted(s) == s
  {
    if s != [] {
      UndottedDigits(s[..|s| - 1]);
    }
  }

  lemma UndottedStep(out: string, dot: string, c: char)
    requires (dot == "." || dot == "") && IsDigit(c)
    ensures Undotted(out + dot + [c]) == Undotted(out) + [c]
  {
    var front := out + dot;
    assert (front + [c])[..|front|] == front;
    UndottedAppend(out, dot);
    assert |dot| == 1 ==> dot[..0] == [];
  }

  lemma DottedNext(s: string, i: nat) returns (front: string, out: string)
    requires 0 < i <= |s| && AllDigits(s)
    ensures front == Dotted(s, i - 1) && out == Dotted(s, i) && Undotted(out) == Undotted(front) + [s[i - 1]]
  {
    front, out := Dotted(s, i - 1), Dotted(s, i);
    UndottedStep(front, if i > 1 && (|s| - (i - 1)) % 3 == 0 then "." else "", s[i - 1]);
  }

  lemma {:induction false} UndottedOfDotted(s: string, i: nat)
    requires i <= |s| && AllDigits(s)
    ensures Undotted(Dotted(s, i)) == s[..i]
  {
    if i > 0 {
      UndottedOfDotted(s, i - 1);
      var front, out := DottedNext(s, i);
      assert s[..i] == s[..i - 1] + [s[i - 1]];
    }
  }

  /** Taking the dots out gives the decimal form. */
  lemma RemovingDots(n: nat)
    ensures Undotted(Formatted(n)) == Decimal(n)
  {
    var s := Decimal(n);
    if n < 1000 {
      UndottedDigits(s);
    } else {
      UndottedOfDotted(s, |s|);
      assert s[..|s|] == s;
    }
  }

  /** So distinct numbers print differently. */
  lemma FormattedIsInjective(n: nat, m: nat)
    requires Formatted(n) == Formatted(m)
    ensures n == m
  {
    RemovingDots(n);
    RemovingDots(m);
    DecimalIsInjective(n, m);
  }

  /** The digits of s from position k on. */
  function DigitsFrom(s: string, k: nat): nat
    requires k <= |s|
    decreases |s| - k
  {
    if k == |s| then 0 else (if s[k] == '.' then 0 else 1) + DigitsFrom(s, k + 1)
  }

  lemma {:induction false} DigitsOfAppend(s: string, c: char, k: nat)
    requires k <= |s|
    ensures DigitsFrom(s + [c], k) == DigitsFrom(s, k) + if c == '.' then 0 else 1
    decreases |s| - k
  {
    if k < |s| {
      DigitsOfAppend(s, c, k + 1);
    } else {
      assert DigitsFrom(s + [c], |s| + 1) == 0;
    }
  }

  /** Every dot so far has a digit before it, and as many digits after it in what is printed and in
      what is still to come as make a positive multiple of three; and wherever such a number of digits
      follows an inner digit, there is a dot. */
  predicate Placed(s: string, i: nat, out: string) {
    && (forall k :: 0 <= k < |out| && out[k] == '.' ==>
          k > 0 && out[k - 1] != '.' && (DigitsFrom(out, k) + |s| - i) % 3 == 0 && DigitsFrom(out, k) > 0)
    && (forall k :: 0 < k < |out| && out[k - 1] != '.' && out[k] != '.' ==> (DigitsFrom(out, k) + |s| - i) % 3 != 0)
    && (out != [] ==> out[|out| - 1] != '.')
  }

  lemma {:induction false} DottedIsPlaced(s: string, i: nat)
    requires i <= |s| && AllDigits(s)
    ensures Placed(s, i, Dotted(s, i)) && (Dotted(s, i) == [] <==> i == 0)
  {
    if i > 0 {
      DottedIsPlaced(s, i - 1);
      var before := Dotted(s, i - 1);
      if i > 1 && (|s| - (i - 1)) % 3 == 0 {
        PlacedDot(s, i, before);
      } else {
        PlacedDigit(s, i, before);
        assert before + "" == before;
      }
    }
  }

  lemma PlacedDigit(s: string, i: nat, out: string)
    requires 0 < i <= |s| && AllDigits(s) && Placed(s, i - 1, out)
    requires out == [] || (|s| - (i - 1)) % 3 != 0
    ensures Placed(s, i, out + [s[i - 1]])
  {
    var next := out + [s[i - 1]];
    forall k | 0 <= k < |out| ensures DigitsFrom(next, k) == DigitsFrom(out, k) + 1 && next[k] == out[k] {
      DigitsOfAppend(out, s[i - 1], k);
    }
    assert DigitsFrom(next, |out|) == 1 + DigitsFrom(next, |out| + 1);
  }

  lemma PlacedDot(s: string, i: nat, out: string)
    requires 1 < i <= |s| && AllDigits(s) && Placed(s, i - 1, out) && out != []
    requires (|s| - (i - 1)) % 3 == 0
    ensures Placed(s, i, out + "." + [s[i - 1]])
  {
    var dotted := out + ['.'];
    var next := dotted + [s[i - 1]];
    assert out + "." + [s[i - 1]] == next;
    forall k | 0 <= k < |out| ensures DigitsFrom(next, k) == DigitsFrom(out, k) + 1 && next[k] == out[k] {
      DigitsOfAppend(out, '.', k);
      DigitsOfAppend(dotted, s[i - 1], k);
    }
    assert DigitsFrom(next, |out| + 2) == 0;
    assert DigitsFrom(next, |out| + 1) == 1;
    assert DigitsFrom(next, |out|) == 1;
  }

  lemma ShortDecimal(n: nat)
    requires n < 1000
    ensures |Decimal(n)| <= 3
  {
    assert n >= 10 ==> n / 10 < 100;
    assert n >= 100 ==> |Decimal(n)| == 2 + |Decimal(n / 100)| by {
      assert n / 10 / 10 == n / 100;
    }
  }

  lemma {:induction false} ShortHasNoDots(s: string, i: nat)
    requires i <= |s| <= 3
    ensures Dotted(s, i) == s[..i]
  {
    if i > 0 {
      ShortHasNoDots(s, i - 1);
      assert s[..i] == s[..i - 1] + "" + [s[i - 1]];
    }
  }

  /** In the printed form of every number a dot stands exactly where an inner digit is followed by a
      positive multiple of three digits. */
  lemma DotsAreExact(n: nat, k: nat)
    requires k < |Formatted(n)|
    ensures var out := Formatted(n);
            && (out[k] == '.' ==> k > 0 && out[k - 1] != '.' && DigitsFrom(out, k) > 0 && DigitsFrom(out, k) % 3 == 0)
            && (k > 0 && out[k] != '.' && out[k - 1] != '.' ==> DigitsFrom(out, k) % 3 != 0)
  {
    var s := Decimal(n);
    if n < 1000 {
      ShortDecimal(n);
      ShortHasNoDots(s, |s|);
      assert s[..|s|] == s;
    }
    DottedIsPlaced(s, |s|);
  }
}

/** slugify (service/tenant/service.go): lower case, keep [a-z0-9-], turn blanks and underscores into
    dashes, rewrite "--" to "-" until none is left, trim. */
module Slug {
  import opened Common

  predicate Kept(c: char) { 'a' <= c <= 'z' || '0' <= c <= '9' || c == '-' }

  /** strings.Map after strings.ToLower. */
  function Mapped(lower: char -> char, s: string): (r: string)
    ensures forall i :: 0 <= i < |r| ==> Kept(r[i])
  {
    if s == [] then []
    else
      var c := lower(s[0]);
      (if Kept(c) then [c] else if c == ' ' || c == '_' then ['-'] else []) + Mapped(lower, s[1..])
  }

  predicate HasDouble(s: string) { exists i :: 0 <= i < |s| - 1 && s[i] == '-' && s[i + 1] == '-' }

  /** strings.ReplaceAll(s, "--", "-"): one pass from left to right, matches do not overlap. */
  function Pass(s: string): (r: string)
    ensures |r| <= |s|
  {
    if |s| < 2 then s
    else if s[0] == '-' && s[1] == '-' then ['-'] + Pass(s[2..])
    else [s[0]] + Pass(s[1..])
  }

  /** Every run of dashes reduced to one. */
  function Collapse(s: string): string {
    if |s| < 2 then s
    else if s[0] == '-' && s[1] == '-' then Collapse(s[1..])
    else [s[0]] + Collapse(s[1..])
  }

  function TrimLeft(s: string): string {
    if s != [] && s[0] == '-' then TrimLeft(s[1..]) else s
  }

  function TrimRight(s: string): string {
    if s != [] && s[|s| - 1] == '-' then TrimRight(s[..|s| - 1]) else s
  }

  /** What slugify returns. */
  function Slug(lower: char -> char, name: string): string {
    TrimRight(TrimLeft(Collapse(Mapped(lower, name))))
  }

  // ---------------------------------------------------------------- a pass and the fixpoint

  lemma FirstOfPass(s: string)
    ensures Pass(s) == [] <==> s == []
    ensures s != [] ==> Pass(s)[0] == s[0]
  {
  }

  /** What the loop preserves. */
  lemma {:induction false} PassKeepsCollapse(s: string)
    ensures Collapse(Pass(s)) == Collapse(s)
  {
    if |s| >= 2 {
      if s[0] == '-' && s[1] == '-' {
        var rest := s[2..];
        PassKeepsCollapse(rest);
        FirstOfPass(rest);
        assert Pass(s) == ['-'] + Pass(rest) && Pass(s)[1..] == Pass(rest);
        assert s[1..][1..] == rest;
      } else {
        PassKeepsCollapse(s[1..]);
        FirstOfPass(s[1..]);
        assert Pass(s) == [s[0]] + Pass(s[1..]) && Pass(s)[1..] == Pass(s[1..]);
      }
    }
  }

  /** Where the loop stops. */
  lemma {:induction false} CollapseFixes(s: string)
    requires !HasDouble(s)
    ensures Collapse(s) == s
  {
    if |s| >= 2 {
      assert s[0] == '-' ==> s[1] != '-';
      forall i | 0 <= i < |s[1..]| - 1 ensures !(s[1..][i] == '-' && s[1..][i + 1] == '-') {
        assert s[1..][i] == s[i + 1] && s[1..][i + 1] == s[i + 2];
      }
      CollapseFixes(s[1..]);
    }
  }

  // ---------------------------------------------------------------- how many passes

  /** Dashes at the front. */
  function Lead(s: string): nat {
    if s != [] && s[0] == '-' then 1 + Lead(s[1..]) else 0
  }

  /** The longest run of dashes. */
  function MaxRun(s: string): nat {
    if s == [] then 0 else Max(Lead(s), MaxRun(s[1..]))
  }

  lemma {:induction false} LeadOfPass(s: string)
    ensures Lead(Pass(s)) == (Lead(s) + 1) / 2
  {
    if |s| >= 2 && s[0] == '-' {
      if s[1] == '-' {
        LeadOfPass(s[2..]);
        assert Pass(s)[1..] == Pass(s[2..]);
        assert s[1..][1..] == s[2..];
        assert Lead(s) == 1 + Lead(s[1..]) && Lead(s[1..]) == 1 + Lead(s[2..]);
      } else {
        FirstOfPass(s[1..]);
        assert Pass(s)[1..] == Pass(s[1..]);
      }
    }
  }

  /** One pass halves the longest run, rounding up. */
  lemma {:induction false} PassHalves(s: string)
    ensures MaxRun(Pass(s)) == (MaxRun(s) + 1) / 2
  {
    LeadOfPass(s);
    if |s| >= 2 {
      if s[0] == '-' && s[1] == '-' {
        PassHalves(s[2..]);
        assert Pass(s)[1..] == Pass(s[2..]);
        assert s[1..][1..] == s[2..];
        assert MaxRun(s) == Max(Lead(s), Max(Lead(s[1..]), MaxRun(s[2..])));
      } else {
        PassHalves(s[1..]);
        assert Pass(s)[1..] == Pass(s[1..]);
      }
    } else if |s| == 1 {
      assert s[1..] == [];
    }
  }

  lemma {:induction false} DoubleIsARun(s: string)
    ensures HasDouble(s) <==> MaxRun(s) >= 2
  {
    if s != [] {
      var t := s[1..];
      DoubleIsARun(t);
      if HasDouble(t) {
        var i :| 0 <= i < |t| - 1 && t[i] == '-' && t[i + 1] == '-';
        assert s[i + 1] == '-' && s[i + 2] == '-';
      }
      if HasDouble(s) {
        var i :| 0 <= i < |s| - 1 && s[i] == '-' && s[i + 1] == '-';
        if i > 0 {
          assert t[i - 1] == '-' && t[i] == '-';
        }
      }
      if Lead(s) >= 2 {
        assert s[0] == '-' && s[1] == '-';
      }
    }
  }

  function CeilLog2(n: nat): nat { if n <= 1 then 0 else 1 + CeilLog2((n + 1) / 2) }

  function Pow2(k: nat): nat { if k == 0 then 1 else 2 * Pow2(k - 1) }

  /** CeilLog2(n) is the least k with n <= 2^k. */
  lemma {:induction false} CeilLog2IsLeast(n: nat, k: nat)
    ensures n <= Pow2(k) <==> CeilLog2(n) <= k
    decreases n
  {
    if n > 1 {
      if k > 0 {
        CeilLog2IsLeast((n + 1) / 2, k - 1);
      }
    } else {
      Pow2Positive(k);
    }
  }

  lemma {:induction false} Pow2Positive(k: nat)
    ensures Pow2(k) >= 1
  {
    if k > 0 {
      Pow2Positive(k - 1);
    }
  }

  /** slugify itself. Its loop runs exactly log2 of the longest run of dashes times, rounded up. */
  method Slugify(lower: char -> char, name: string) returns (slug: string, ghost passes: nat)
    ensures slug == Slug(lower, name)
    ensures passes == CeilLog2(MaxRun(Mapped(lower, name)))
  {
    slug := Mapped(lower, name);
    passes := 0;
    while exists i :: 0 <= i < |slug| - 1 && slug[i] == '-' && slug[i + 1] == '-'
      invariant Collapse(slug) == Collapse(Mapped(lower, name))
      invariant passes + CeilLog2(MaxRun(slug)) == CeilLog2(MaxRun(Mapped(lower, name)))
      decreases MaxRun(slug)
    {
      assert HasDouble(slug);
      DoubleIsARun(slug);
      PassKeepsCollapse(slug);
      PassHalves(slug);
      slug := Pass(slug);
      passes := passes + 1;
    }
    assert !HasDouble(slug);
    DoubleIsARun(slug);
    CollapseFixes(slug);
    slug := TrimRight(TrimLeft(slug));
  }

  // ---------------------------------------------------------------- what a slug looks like

  predicate AllKept(s: string) { forall i :: 0 <= i < |s| ==> Kept(s[i]) }

  predicate IsSlug(s: string) {
    AllKept(s) && !HasDouble(s) && (s != [] ==> s[0] != '-' && s[|s| - 1] != '-')
  }

  lemma {:induction false} CollapseShape(s: string)
    requires AllKept(s)
    ensures AllKept(Collapse(s)) && !HasDouble(Collapse(s))
    ensures Collapse(s) == [] <==> s == []
    ensures s != [] ==> Collapse(s)[0] == s[0]
  {
    if |s| >= 2 {
      CollapseShape(s[1..]);
      var t := Collapse(s[1..]);
      if !(s[0] == '-' && s[1] == '-') {
        assert t[0] == s[1];
        var r := [s[0]] + t;
        forall i | 0 <= i < |r| - 1 ensures !(r[i] == '-' && r[i + 1] == '-') {
          if i > 0 {
            assert r[i] == t[i - 1] && r[i + 1] == t[i];
          }
        }
      }
    }
  }

  lemma {:induction false} TrimLeftShape(s: string)
    requires AllKept(s) && !HasDouble(s)
    ensures AllKept(TrimLeft(s)) && !HasDouble(TrimLeft(s))
    ensures TrimLeft(s) != [] ==> TrimLeft(s)[0] != '-'
  {
    if s != [] && s[0] == '-' {
      forall i | 0 <= i < |s[1..]| - 1 ensures !(s[1..][i] == '-' && s[1..][i + 1] == '-') {
        assert s[1..][i] == s[i + 1] && s[1..][i + 1] == s[i + 2];
      }
      TrimLeftShape(s[1..]);
    }
  }

  lemma {:induction false} TrimRightShape(s: string)
    requires AllKept(s) && !HasDouble(s) && (s != [] ==> s[0] != '-')
    ensures IsSlug(TrimRight(s))
  {
    if s != [] && s[|s| - 1] == '-' {
      var t := s[..|s| - 1];
      forall i | 0 <= i < |t| - 1 ensures !(t[i] == '-' && t[i + 1] == '-') {
        assert t[i] == s[i] && t[i + 1] == s[i + 1];
      }
      TrimRightShape(t);
    }
  }

  /** Only [a-z0-9-], no two dashes in a row, no dash at either end. */
  lemma SlugIsASlug(lower: char -> char, name: string)
    ensures IsSlug(Slug(lower, name))
    ensures var r := Slug(lower, name);
            && (forall i :: 0 <= i < |r| ==> 'a' <= r[i] <= 'z' || '0' <= r[i] <= '9' || r[i] == '-')
            && (forall i :: 0 <= i < |r| - 1 ==> !(r[i] == '-' && r[i + 1] == '-'))
            && (r != [] ==> r[0] != '-' && r[|r| - 1] != '-')
  {
    var s := Mapped(lower, name);
    CollapseShape(s);
    TrimLeftShape(Collapse(s));
    TrimRightShape(TrimLeft(Collapse(s)));
  }

  /** Lower-casing leaves the characters of slugs alone. */
  ghost predicate LowersAscii(lower: char -> char) { forall c :: Kept(c) ==> lower(c) == c }

  lemma {:induction false} MappedFixes(lower: char -> char, s: string)
    requires LowersAscii(lower) && AllKept(s)
    ensures Mapped(lower, s) == s
  {
    if s != [] {
      MappedFixes(lower, s[1..]);
      assert s == [s[0]] + s[1..];
    }
  }

  /** The slugs are exactly what slugify leaves alone. */
  lemma FixedExactlyWhenSlug(lower: char -> char, s: string)
    requires LowersAscii(lower)
    ensures Slug(lower, s) == s <==> IsSlug(s)
  {
    if IsSlug(s) {
      MappedFixes(lower, s);
      CollapseFixes(s);
    } else {
      SlugIsASlug(lower, s);
    }
  }

  lemma SlugifyIsIdempotent(lower: char -> char, name: string)
    requires LowersAscii(lower)
    ensures Slug(lower, Slug(lower, name)) == Slug(lower, name)
  {
    SlugIsASlug(lower, name);
    FixedExactlyWhenSlug(lower, Slug(lower, name));
  }

  /** The letters and digits of s, in order. */
  function Letters(s: string): string {
    if s == [] then [] else (if s[0] == '-' then [] else [s[0]]) + Letters(s[1..])
  }

  lemma Associates(a: string, b: string, c: string)
    ensures a + (b + c) == a + b + c
  {
  }

  lemma {:induction false} LettersAppend(s: string, t: string)
    ensures Letters(s + t) == Letters(s) + Letters(t)
  {
    if s == [] {
      assert s + t == t;
    } else {
      var st := s + t;
      LettersAppend(s[1..], t);
      assert st[0] == s[0] && st[1..] == s[1..] + t;
      var head, rest := if s[0] == '-' then [] else [s[0]], Letters(s[1..]);
      assert Letters(st) == head + (rest + Letters(t)) && Letters(s) == head + rest;
      Associates(head, rest, Letters(t));
    }
  }

  lemma {:induction false} CollapseKeepsLetters(s: string)
    ensures Letters(Collapse(s)) == Letters(s)
  {
    if |s| >= 2 {
      CollapseKeepsLetters(s[1..]);
      if !(s[0] == '-' && s[1] == '-') {
        assert Collapse(s)[1..] == Collapse(s[1..]);
      }
    }
  }

  lemma {:induction false} TrimLeftKeepsLetters(s: string)
    ensures Letters(TrimLeft(s)) == Letters(s)
  {
    if s != [] && s[0] == '-' {
      TrimLeftKeepsLetters(s[1..]);
    }
  }

  lemma {:induction false} TrimRightKeepsLetters(s: string)
    ensures Letters(TrimRight(s)) == Letters(s)
  {
    if s != [] && s[|s| - 1] == '-' {
      var t := s[..|s| - 1];
      TrimRightKeepsLetters(t);
      LettersAppend(t, ['-']);
      assert s == t + ['-'];
    }
  }

  /** The lower-case letters and digits of a name, in order. */
  function LettersOf(lower: char -> char, name: string): string {
    if name == [] then []
    else
      var c := lower(name[|name| - 1]);
      LettersOf(lower, name[..|name| - 1]) + if 'a' <= c <= 'z' || '0' <= c <= '9' then [c] else []
  }

  /** Each character of the name is kept, turned into a dash or dropped on its own. */
  lemma {:induction false} MappedAppend(lower: char -> char, s: string, c: char)
    ensures Mapped(lower, s + [c]) == Mapped(lower, s) + Mapped(lower, [c])
  {
    if s == [] {
      assert s + [c] == [c];
    } else {
      var sc := s + [c];
      MappedAppend(lower, s[1..], c);
      assert sc[0] == s[0] && sc[1..] == s[1..] + [c];
      var d := lower(s[0]);
      var head := if Kept(d) then [d] else if d == ' ' || d == '_' then ['-'] else [];
      Associates(head, Mapped(lower, s[1..]), Mapped(lower, [c]));
    }
  }

  lemma {:induction false} LettersOfMapped(lower: char -> char, name: string)
    ensures Letters(Mapped(lower, name)) == LettersOf(lower, name)
  {
    if name != [] {
      var s, c := name[..|name| - 1], name[|name| - 1];
      LettersOfMapped(lower, s);
      MappedAppend(lower, s, c);
      assert s + [c] == name;
      LettersAppend(Mapped(lower, s), Mapped(lower, [c]));
      OneMapped(lower, c);
    }
  }

  lemma OneMapped(lower: char -> char, c: char)
    ensures var d := lower(c);
            && Mapped(lower, [c]) == (if 'a' <= d <= 'z' || '0' <= d <= '9' then [d]
                                      else if d == '-' || d == ' ' || d == '_' then "-" else "")
            && Letters(Mapped(lower, [c])) == if 'a' <= d <= 'z' || '0' <= d <= '9' then [d] else ""
  {
    assert [c][1..] == [];
  }

  /** No letter or digit is lost, added or moved on the way from the name to the slug. */
  lemma SlugKeepsLetters(lower: char -> char, name: string)
    ensures Letters(Slug(lower, name)) == LettersOf(lower, name)
  {
    var s := Mapped(lower, name);
    CollapseKeepsLetters(s);
    TrimLeftKeepsLetters(Collapse(s));
    TrimRightKeepsLetters(TrimLeft(Collapse(s)));
    LettersOfMapped(lower, name);
  }
}

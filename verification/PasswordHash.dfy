/** Password hashes as text (service/auth/service.go): the printer HashPassword, the parser and the
    comparison verifyArgon2id. Argon2 itself is a function of its arguments. */
module PasswordHash {
  import opened Common
  import opened Numerals
  import opened Base64

  /** argon2.IDKey(password, salt, iterations, memory, parallelism, key length). */
  type Argon = (string, seq<byte>, nat, nat, nat, nat) -> seq<byte>

  const PREFIX := "$argon2id$v=19$m="

  function Printed(memory: nat, iterations: nat, parallelism: nat, salt: seq<byte>, hash: seq<byte>): string {
    PREFIX + (Decimal(memory) + (",t=" + (Decimal(iterations) + (",p=" + (Decimal(parallelism)
    + ("$" + (Encode(salt) + ("$" + Encode(hash)))))))))
  }

  /** HashPassword, with the salt it drew. */
  function Hashed(argon: Argon, password: string, salt: seq<byte>): string {
    Printed(65536, 3, 4, salt, argon(password, salt, 3, 65536, 4, 32))
  }

  // ---------------------------------------------------------------- fmt.Sscanf

  predicate Blank(c: char) {
    c == ' ' || c == '\t' || c == '\r' || c == '\n'
    || c == 0x0B as char || c == 0x0C as char || c == 0x85 as char || c == 0xA0 as char
  }

  /** Blanks before a verb are skipped; a new line is an error. */
  function Skip(s: string): Option<string> {
    if s == "" then Some(s) else if s[0] == '\n' then None else if Blank(s[0]) then Skip(s[1..]) else Some(s)
  }

  function Literal(s: string, lit: string): Option<string> {
    if lit <= s then Some(s[|lit|..]) else None
  }

  function DigitRun(s: string): (n: nat)
    ensures n <= |s| && AllDigits(s[..n])
  {
    if s != "" && IsDigit(s[0]) then
      var n := 1 + DigitRun(s[1..]);
      assert s[..n] == [s[0]] + s[1..][..n - 1];
      n
    else 0
  }

  /** %d into an unsigned variable whose largest value is max. */
  function Number(s: string, max: nat): Option<(nat, string)> {
    var t := Skip(s);
    if t.None? then None
    else
      var n := DigitRun(t.value);
      if n == 0 || Value(t.value[..n]) > max then None else Some((Value(t.value[..n]), t.value[n..]))
  }

  function WordRun(s: string): (n: nat)
    ensures n <= |s|
  {
    if s != "" && !Blank(s[0]) then 1 + WordRun(s[1..]) else 0
  }

  /** %s: what follows the word is not looked at. */
  function Word(s: string): Option<string> {
    var t := Skip(s);
    if t.None? || WordRun(t.value) == 0 then None else Some(t.value[..WordRun(t.value)])
  }

  datatype Scanned = Scanned(memory: nat, iterations: nat, parallelism: nat, word: string)

  /** Sscanf(hash, "$argon2id$v=19$m=%d,t=%d,p=%d$%s", ...), one verb after another. */
  function ScanMemory(hash: string): Option<Scanned> {
    var s := Literal(hash, PREFIX);
    if s.None? then None
    else
      var m := Number(s.value, 0xFFFF_FFFF);
      if m.None? then None else ScanIterations(m.value.0, m.value.1)
  }

  function ScanIterations(memory: nat, input: string): Option<Scanned> {
    var s := Literal(input, ",t=");
    if s.None? then None
    else
      var t := Number(s.value, 0xFFFF_FFFF);
      if t.None? then None else ScanParallelism(memory, t.value.0, t.value.1)
  }

  function ScanParallelism(memory: nat, iterations: nat, input: string): Option<Scanned> {
    var s := Literal(input, ",p=");
    if s.None? then None
    else
      var p := Number(s.value, 0xFF);
      if p.None? then None else ScanWord(memory, iterations, p.value.0, p.value.1)
  }

  function ScanWord(memory: nat, iterations: nat, parallelism: nat, input: string): Option<Scanned> {
    var s := Literal(input, "$");
    if s.None? || Word(s.value).None? then None
    else Some(Scanned(memory, iterations, parallelism, Word(s.value).value))
  }

  /** A printed number reads back, whatever follows it that is not a digit. */
  lemma {:induction false} DigitRunOf(digits: string, rest: string)
    requires AllDigits(digits) && (rest != "" ==> !IsDigit(rest[0]))
    ensures DigitRun(digits + rest) == |digits|
  {
    if digits == "" {
      assert digits + rest == rest;
    } else {
      DigitRunOf(digits[1..], rest);
      assert (digits + rest)[1..] == digits[1..] + rest;
    }
  }

  lemma NumberOf(n: nat, max: nat, rest: string)
    requires n <= max && (rest != "" ==> !IsDigit(rest[0]))
    ensures Number(Decimal(n) + rest, max) == Some((n, rest))
  {
    var s := Decimal(n) + rest;
    DigitRunOf(Decimal(n), rest);
    ValueOfDecimal(n);
    assert IsDigit(s[0]) && Skip(s) == Some(s);
    assert s[..|Decimal(n)|] == Decimal(n) && s[|Decimal(n)|..] == rest;
  }

  predicate NoBlanks(s: string) { forall i :: 0 <= i < |s| ==> !Blank(s[i]) }

  lemma {:induction false} WordRunOf(s: string)
    requires NoBlanks(s)
    ensures WordRun(s) == |s|
  {
    if s != "" {
      WordRunOf(s[1..]);
    }
  }

  lemma LiteralOf(lit: string, rest: string)
    ensures Literal(lit + rest, lit) == Some(rest)
  {
    assert (lit + rest)[|lit|..] == rest;
  }

  lemma WordOf(memory: nat, iterations: nat, parallelism: nat, word: string)
    requires NoBlanks(word) && word != ""
    ensures ScanWord(memory, iterations, parallelism, "$" + word)
            == Some(Scanned(memory, iterations, parallelism, word))
  {
    LiteralOf("$", word);
    WordRunOf(word);
    assert Skip(word) == Some(word) && word[..|word|] == word;
  }

  lemma ParallelismOf(memory: nat, iterations: nat, parallelism: nat, rest: string)
    requires parallelism <= 0xFF && rest != "" && !IsDigit(rest[0])
    ensures ScanParallelism(memory, iterations, ",p=" + (Decimal(parallelism) + rest))
            == ScanWord(memory, iterations, parallelism, rest)
  {
    LiteralOf(",p=", Decimal(parallelism) + rest);
    NumberOf(parallelism, 0xFF, rest);
  }

  lemma IterationsOf(memory: nat, iterations: nat, rest: string)
    requires iterations <= 0xFFFF_FFFF && rest != "" && !IsDigit(rest[0])
    ensures ScanIterations(memory, ",t=" + (Decimal(iterations) + rest)) == ScanParallelism(memory, iterations, rest)
  {
    LiteralOf(",t=", Decimal(iterations) + rest);
    NumberOf(iterations, 0xFFFF_FFFF, rest);
  }

  lemma MemoryOf(memory: nat, rest: string)
    requires memory <= 0xFFFF_FFFF && rest != "" && !IsDigit(rest[0])
    ensures ScanMemory(PREFIX + (Decimal(memory) + rest)) == ScanIterations(memory, rest)
  {
    LiteralOf(PREFIX, Decimal(memory) + rest);
    NumberOf(memory, 0xFFFF_FFFF, rest);
  }

  /** Sscanf reads back what Sprintf printed, for every number that fits. */
  lemma ScanOfPrinted(memory: nat, iterations: nat, parallelism: nat, word: string)
    requires memory <= 0xFFFF_FFFF && iterations <= 0xFFFF_FFFF && parallelism <= 0xFF && NoBlanks(word) && word != ""
    ensures ScanMemory(PREFIX + (Decimal(memory) + (",t=" + (Decimal(iterations) +
                              (",p=" + (Decimal(parallelism) + ("$" + word)))))))
            == Some(Scanned(memory, iterations, parallelism, word))
  {
    var s3 := "$" + word;
    var s2 := ",p=" + (Decimal(parallelism) + s3);
    var s1 := ",t=" + (Decimal(iterations) + s2);
    assert s3[0] == '$' && s2[0] == ',' && s1[0] == ',';
    MemoryOf(memory, s1);
    IterationsOf(memory, iterations, s2);
    ParallelismOf(memory, iterations, parallelism, s3);
    WordOf(memory, iterations, parallelism, word);
  }

  // ---------------------------------------------------------------- exactly which texts scan

  predicate Spaces(s: string) { forall i :: 0 <= i < |s| ==> Blank(s[i]) && s[i] != '\n' }

  lemma {:induction false} SkipOf(spaces: string, t: string)
    requires Spaces(spaces) && (t != "" ==> !Blank(t[0]))
    ensures Skip(spaces + t) == Some(t)
  {
    if spaces == "" {
      assert spaces + t == t;
    } else {
      SkipOf(spaces[1..], t);
      assert (spaces + t)[1..] == spaces[1..] + t;
    }
  }

  lemma {:induction false} SkippedIs(s: string) returns (spaces: string)
    requires Skip(s).Some?
    ensures s == spaces + Skip(s).value && Spaces(spaces)
    ensures Skip(s).value != "" ==> !Blank(Skip(s).value[0])
  {
    spaces := "";
    if s != "" && Blank(s[0]) {
      spaces := SkippedIs(s[1..]);
      spaces := [s[0]] + spaces;
      assert s == [s[0]] + s[1..];
    }
  }

  /** Blanks, the longest run of digits, and the rest. */
  predicate NumberIs(s: string, spaces: string, digits: string, rest: string) {
    && s == spaces + (digits + rest) && Spaces(spaces) && digits != "" && AllDigits(digits)
    && (rest != "" ==> !IsDigit(rest[0]))
  }

  lemma {:induction false} DigitRunIsMaximal(s: string)
    ensures DigitRun(s) < |s| ==> !IsDigit(s[DigitRun(s)])
  {
    if s != "" && IsDigit(s[0]) {
      DigitRunIsMaximal(s[1..]);
    }
  }

  lemma NumberReads(s: string, max: nat, spaces: string, digits: string, rest: string)
    requires NumberIs(s, spaces, digits, rest)
    ensures Number(s, max) == if Value(digits) <= max then Some((Value(digits), rest)) else None
  {
    var t := digits + rest;
    SkipOf(spaces, t);
    DigitRunOf(digits, rest);
    assert t[..|digits|] == digits && t[|digits|..] == rest;
  }

  lemma NumberWasThere(s: string, max: nat) returns (spaces: string, digits: string)
    requires Number(s, max).Some?
    ensures NumberIs(s, spaces, digits, Number(s, max).value.1) && Value(digits) == Number(s, max).value.0 <= max
  {
    spaces := SkippedIs(s);
    var t := Skip(s).value;
    digits := t[..DigitRun(t)];
    DigitRunIsMaximal(t);
    assert t == digits + t[DigitRun(t)..];
  }

  /** Blanks, a word, and then nothing or a blank. */
  predicate WordIs(s: string, spaces: string, word: string, rest: string) {
    && s == spaces + (word + rest) && Spaces(spaces) && word != "" && NoBlanks(word) && (rest != "" ==> Blank(rest[0]))
  }

  lemma {:induction false} WordRunIs(word: string, rest: string)
    requires NoBlanks(word) && (rest != "" ==> Blank(rest[0]))
    ensures WordRun(word + rest) == |word|
  {
    if word == "" {
      assert word + rest == rest;
    } else {
      WordRunIs(word[1..], rest);
      assert (word + rest)[1..] == word[1..] + rest;
    }
  }

  lemma {:induction false} WordRunIsMaximal(s: string)
    ensures NoBlanks(s[..WordRun(s)]) && (WordRun(s) < |s| ==> Blank(s[WordRun(s)]))
  {
    if s != "" && !Blank(s[0]) {
      WordRunIsMaximal(s[1..]);
      assert s[..WordRun(s)] == [s[0]] + s[1..][..WordRun(s) - 1];
    }
  }

  lemma WordReads(s: string, spaces: string, word: string, rest: string)
    requires WordIs(s, spaces, word, rest)
    ensures Word(s) == Some(word)
  {
    SkipOf(spaces, word + rest);
    WordRunIs(word, rest);
    assert (word + rest)[..|word|] == word;
  }

  lemma WordWasThere(s: string) returns (spaces: string, rest: string)
    requires Word(s).Some?
    ensures WordIs(s, spaces, Word(s).value, rest)
  {
    spaces := SkippedIs(s);
    var t := Skip(s).value;
    WordRunIsMaximal(t);
    rest := t[WordRun(t)..];
    assert t == t[..WordRun(t)] + rest;
  }

  lemma LiteralIs(s: string, lit: string)
    ensures Literal(s, lit).Some? ==> s == lit + Literal(s, lit).value
  {
  }

  /** The text is the prefix, three numbers and a word, with blanks before each of the four and the
      literals in between; s1 to s3 are what follows the numbers' literals. */
  ghost predicate Spelled(text: string, r: Scanned, s0: string, s1: string, s2: string, s3: string) {
    && text == PREFIX + s0 && r.memory <= 0xFFFF_FFFF && r.iterations <= 0xFFFF_FFFF && r.parallelism <= 0xFF
    && (exists a, d :: NumberIs(s0, a, d, ",t=" + s1) && Value(d) == r.memory)
    && (exists a, d :: NumberIs(s1, a, d, ",p=" + s2) && Value(d) == r.iterations)
    && (exists a, d :: NumberIs(s2, a, d, "$" + s3) && Value(d) == r.parallelism)
    && (exists a, rest :: WordIs(s3, a, r.word, rest))
  }

  lemma SpelledScans(text: string, r: Scanned, s0: string, s1: string, s2: string, s3: string)
    requires Spelled(text, r, s0, s1, s2, s3)
    ensures ScanMemory(text) == Some(r)
  {
    var a0, d0 :| NumberIs(s0, a0, d0, ",t=" + s1) && Value(d0) == r.memory;
    var a1, d1 :| NumberIs(s1, a1, d1, ",p=" + s2) && Value(d1) == r.iterations;
    var a2, d2 :| NumberIs(s2, a2, d2, "$" + s3) && Value(d2) == r.parallelism;
    var a3, rest :| WordIs(s3, a3, r.word, rest);
    LiteralOf(PREFIX, s0);
    NumberReads(s0, 0xFFFF_FFFF, a0, d0, ",t=" + s1);
    LiteralOf(",t=", s1);
    NumberReads(s1, 0xFFFF_FFFF, a1, d1, ",p=" + s2);
    LiteralOf(",p=", s2);
    NumberReads(s2, 0xFF, a2, d2, "$" + s3);
    LiteralOf("$", s3);
    WordReads(s3, a3, r.word, rest);
  }

  lemma ScannedWasSpelled(text: string) returns (s0: string, s1: string, s2: string, s3: string)
    requires ScanMemory(text).Some?
    ensures Spelled(text, ScanMemory(text).value, s0, s1, s2, s3)
  {
    LiteralIs(text, PREFIX);
    s0 := Literal(text, PREFIX).value;
    var a0, d0 := NumberWasThere(s0, 0xFFFF_FFFF);
    var r0 := Number(s0, 0xFFFF_FFFF).value.1;
    LiteralIs(r0, ",t=");
    s1 := Literal(r0, ",t=").value;
    var a1, d1 := NumberWasThere(s1, 0xFFFF_FFFF);
    var r1 := Number(s1, 0xFFFF_FFFF).value.1;
    LiteralIs(r1, ",p=");
    s2 := Literal(r1, ",p=").value;
    var a2, d2 := NumberWasThere(s2, 0xFF);
    var r2 := Number(s2, 0xFF).value.1;
    LiteralIs(r2, "$");
    s3 := Literal(r2, "$").value;
    var a3, rest := WordWasThere(s3);
  }

  /** The scanner accepts exactly the texts that are spelled so, and reads what they spell. */
  lemma ScansExactly(text: string, r: Scanned)
    ensures ScanMemory(text) == Some(r) <==> exists s0, s1, s2, s3 :: Spelled(text, r, s0, s1, s2, s3)
  {
    if ScanMemory(text) == Some(r) {
      var s0, s1, s2, s3 := ScannedWasSpelled(text);
    }
    if s0, s1, s2, s3 :| Spelled(text, r, s0, s1, s2, s3) {
      SpelledScans(text, r, s0, s1, s2, s3);
    }
  }

  // ---------------------------------------------------------------- splitLast

  /** Where sep last occurs in s, or -1. */
  function LastIndex(s: string, sep: char): (i: int)
    ensures -1 <= i < |s|
    ensures i >= 0 ==> s[i] == sep
    ensures forall j :: i < j < |s| ==> s[j] != sep
  {
    if s == "" then -1 else if s[|s| - 1] == sep then |s| - 1 else LastIndex(s[..|s| - 1], sep)
  }

  method SplitLast(s: string, sep: char) returns (parts: seq<string>)
    ensures parts == if LastIndex(s, sep) < 0 then [s] else [s[..LastIndex(s, sep)], s[LastIndex(s, sep) + 1..]]
  {
    var idx := -1;
    var i := |s| - 1;
    while i >= 0
      invariant -1 <= i < |s|
      invariant forall j :: i < j < |s| ==> s[j] != sep
    {
      if s[i] == sep {
        idx := i;
        break;
      }
      i := i - 1;
    }
    if idx < 0 {
      return [s];
    }
    return [s[..idx], s[idx + 1..]];
  }

  // ---------------------------------------------------------------- the comparison

  /** The operators ^ and | on bytes. */
  function Xor(x: nat, y: nat): nat
    decreases x + y
  {
    if x == 0 && y == 0 then 0 else 2 * Xor(x / 2, y / 2) + if x % 2 != y % 2 then 1 else 0
  }

  function Or(x: nat, y: nat): nat
    decreases x + y
  {
    if x == 0 && y == 0 then 0 else 2 * Or(x / 2, y / 2) + if x % 2 == 1 || y % 2 == 1 then 1 else 0
  }

  lemma {:induction false} XorIsZero(x: nat, y: nat)
    ensures Xor(x, y) == 0 <==> x == y
    decreases x + y
  {
    if x != 0 || y != 0 {
      XorIsZero(x / 2, y / 2);
    }
  }

  lemma {:induction false} OrIsZero(x: nat, y: nat)
    ensures Or(x, y) == 0 <==> x == 0 && y == 0
    decreases x + y
  {
    if x != 0 || y != 0 {
      OrIsZero(x / 2, y / 2);
    }
  }

  /** The constant-time comparison ends at 0 exactly on equal byte strings. */
  method SameBytes(a: seq<byte>, b: seq<byte>) returns (same: bool)
    requires |a| == |b|
    ensures same <==> a == b
  {
    var diff := 0;
    for i := 0 to |a|
      invariant diff == 0 <==> a[..i] == b[..i]
    {
      OrIsZero(diff, Xor(a[i], b[i]));
      XorIsZero(a[i], b[i]);
      diff := Or(diff, Xor(a[i], b[i]));
      assert a[..i + 1] == a[..i] + [a[i]] && b[..i + 1] == b[..i] + [b[i]];
    }
    assert a[..|a|] == a && b[..|b|] == b;
    same := diff == 0;
  }

  // ---------------------------------------------------------------- verifyArgon2id

  /** The scanned word splits at its last dollar into a salt and a key that Argon2 gives again. */
  predicate WordMatches(argon: Argon, r: Scanned, password: string) {
    var i := LastIndex(r.word, '$');
    i >= 0 && Decode(r.word[..i]).Some? && Decode(r.word[i + 1..]).Some? &&
    var key := Decode(r.word[i + 1..]).value;
    argon(password, Decode(r.word[..i]).value, r.iterations, r.memory, r.parallelism, |key|) == key
  }

  /** The stored text names parameters, a salt and a key that Argon2 gives again for this password. */
  predicate Matches(argon: Argon, text: string, password: string) {
    ScanMemory(text).Some? && WordMatches(argon, ScanMemory(text).value, password)
  }

  /** The word is a base64 salt, a dollar and, up to its end, a base64 key that Argon2 gives again. */
  predicate Accepted(argon: Argon, r: Scanned, salt: string, key: string, password: string) {
    && r.word == salt + ("$" + key) && '$' !in key && Decode(salt).Some? && Decode(key).Some?
    && argon(password, Decode(salt).value, r.iterations, r.memory, r.parallelism, |Decode(key).value|)
       == Decode(key).value
  }

  lemma SplitsAt(w: string, x: string, y: string)
    requires w == x + ("$" + y) && '$' !in y
    ensures LastIndex(w, '$') == |x| && w[..|x|] == x && w[|x| + 1..] == y
  {
    assert w[|x|] == '$' && w[|x| + 1..] == y;
    assert forall j :: |x| < j < |w| ==> w[j] == y[j - |x| - 1];
  }

  lemma SplitsInTwo(w: string)
    requires LastIndex(w, '$') >= 0
    ensures var i := LastIndex(w, '$'); w == w[..i] + ("$" + w[i + 1..]) && '$' !in w[i + 1..]
  {
  }

  lemma MatchIsAccepted(argon: Argon, r: Scanned, password: string) returns (salt: string, key: string)
    requires WordMatches(argon, r, password)
    ensures Accepted(argon, r, salt, key, password)
  {
    var i := LastIndex(r.word, '$');
    SplitsInTwo(r.word);
    salt, key := r.word[..i], r.word[i + 1..];
  }

  lemma AcceptedMatches(argon: Argon, r: Scanned, salt: string, key: string, password: string)
    requires Accepted(argon, r, salt, key, password)
    ensures WordMatches(argon, r, password)
  {
    SplitsAt(r.word, salt, key);
  }

  /** The comparison accepts exactly the spelled texts whose word is a salt, a dollar and a key that
      Argon2 gives again. */
  lemma MatchesExactly(argon: Argon, text: string, password: string)
    ensures Matches(argon, text, password)
            <==> exists r, salt, key :: ScanMemory(text) == Some(r) && Accepted(argon, r, salt, key, password)
  {
    if Matches(argon, text, password) {
      var salt, key := MatchIsAccepted(argon, ScanMemory(text).value, password);
    }
    if r, salt, key :| ScanMemory(text) == Some(r) && Accepted(argon, r, salt, key, password) {
      AcceptedMatches(argon, r, salt, key, password);
    }
  }

  method VerifyArgon2id(argon: Argon, text: string, password: string) returns (ok: bool)
    ensures ok <==> Matches(argon, text, password)
    ensures ok <==> exists r, salt, key :: ScanMemory(text) == Some(r) && Accepted(argon, r, salt, key, password)
  {
    MatchesExactly(argon, text, password);
    var scanned := ScanMemory(text);
    if scanned.None? {
      return false;
    }
    var parts := SplitLast(scanned.value.word, '$');
    if |parts| != 2 {
      return false;
    }
    var salt := Decode(parts[0]);
    if salt.None? {
      return false;
    }
    var expected := Decode(parts[1]);
    if expected.None? {
      return false;
    }
    var actual := argon(password, salt.value, scanned.value.iterations, scanned.value.memory,
                        scanned.value.parallelism, |expected.value|);
    if |actual| != |expected.value| {
      return false;
    }
    ok := SameBytes(actual, expected.value);
  }

  lemma AlphabetIsPlain(s: string)
    requires InAlphabet(s)
    ensures NoBlanks(s) && forall i :: 0 <= i < |s| ==> s[i] != '$'
  {
  }

  lemma LastDollar(salt: string, hash: string)
    requires InAlphabet(salt) && InAlphabet(hash)
    ensures var w := salt + ("$" + hash);
            NoBlanks(w) && LastIndex(w, '$') == |salt| && w[..|salt|] == salt && w[|salt| + 1..] == hash
  {
    var w := salt + ("$" + hash);
    AlphabetIsPlain(salt);
    AlphabetIsPlain(hash);
    assert w[|salt|] == '$' && w[|salt| + 1..] == hash && w[..|salt|] == salt;
    forall i | 0 <= i < |w| ensures !Blank(w[i]) && (i > |salt| ==> w[i] != '$') {
      if i < |salt| {
        assert w[i] == salt[i];
      } else if i > |salt| {
        assert w[i] == hash[i - |salt| - 1];
      }
    }
  }

  lemma ScanOfHashed(argon: Argon, password: string, salt: seq<byte>)
    ensures var word := Encode(salt) + ("$" + Encode(argon(password, salt, 3, 65536, 4, 32)));
            ScanMemory(Hashed(argon, password, salt)) == Some(Scanned(65536, 3, 4, word))
  {
    var key := argon(password, salt, 3, 65536, 4, 32);
    LastDollar(Encode(salt), Encode(key));
    ScanOfPrinted(65536, 3, 4, Encode(salt) + ("$" + Encode(key)));
  }

  /** What HashPassword stores, letter by letter. */
  lemma HashedIsText(argon: Argon, password: string, salt: seq<byte>)
    ensures Hashed(argon, password, salt)
            == "$argon2id$v=19$m=65536,t=3,p=4$"
               + (Encode(salt) + ("$" + Encode(argon(password, salt, 3, 65536, 4, 32))))
  {
    var key := Encode(argon(password, salt, 3, 65536, 4, 32));
    ParametersAreText();
    TextOfParameters(Encode(salt) + ("$" + key));
  }

  lemma ParametersAreText()
    ensures Decimal(65536) == "65536" && Decimal(3) == "3" && Decimal(4) == "4"
  {
    DecimalIsBaseTen(0, 6);
    DecimalIsBaseTen(6, 5);
    DecimalIsBaseTen(65, 5);
    DecimalIsBaseTen(655, 3);
    DecimalIsBaseTen(6553, 6);
    DecimalIsBaseTen(0, 3);
    DecimalIsBaseTen(0, 4);
  }

  lemma TextOfParameters(rest: string)
    ensures PREFIX + ("65536" + (",t=" + ("3" + (",p=" + ("4" + ("$" + rest))))))
            == "$argon2id$v=19$m=65536,t=3,p=4$" + rest
  {
    assert "4" + ("$" + rest) == "4$" + rest;
    assert "3" + (",p=" + ("4$" + rest)) == "3,p=4$" + rest;
    assert "65536" + (",t=" + ("3,p=4$" + rest)) == "65536,t=3,p=4$" + rest;
  }

  lemma EncodedWordMatches(argon: Argon, r: Scanned, salt: seq<byte>, key: seq<byte>, password: string)
    requires r.word == Encode(salt) + ("$" + Encode(key))
    ensures WordMatches(argon, r, password)
            <==> argon(password, salt, r.iterations, r.memory, r.parallelism, |key|) == key
  {
    LastDollar(Encode(salt), Encode(key));
    DecodeOfEncode(salt);
    DecodeOfEncode(key);
  }

  /** Parser and printer undo each other: a stored hash of p accepts q exactly when Argon2, with the
      stored salt, gives the same key for both. */
  lemma VerifyOfHashed(argon: Argon, p: string, q: string, salt: seq<byte>)
    requires |argon(p, salt, 3, 65536, 4, 32)| == 32
    ensures Matches(argon, Hashed(argon, p, salt), q)
            <==> argon(q, salt, 3, 65536, 4, 32) == argon(p, salt, 3, 65536, 4, 32)
  {
    var key := argon(p, salt, 3, 65536, 4, 32);
    ScanOfHashed(argon, p, salt);
    EncodedWordMatches(argon, ScanMemory(Hashed(argon, p, salt)).value, salt, key, q);
  }
}

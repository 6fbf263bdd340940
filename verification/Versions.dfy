/** Version keys of packages, their order, and the version expressions that select them. */
module Versions {
  datatype Option<T> = None | Some(value: T)

  datatype Ident = Num(number: nat) | Text(text: string)
  datatype Key = Key(numbers: seq<nat>, release: bool, prerelease: seq<Ident>)

  // ---- Splitting ----

  function Cut(s: string, c: char): (i: nat)
    ensures i <= |s| && (i < |s| ==> s[i] == c) && forall j :: 0 <= j < i ==> s[j] != c
  {
    if s == "" || s[0] == c then 0 else 1 + Cut(s[1..], c)
  }

  function Split(s: string, c: char): (parts: seq<string>)
    ensures |parts| >= 1
    decreases |s|
  {
    var i := Cut(s, c);
    if i == |s| then [s] else [s[..i]] + Split(s[i + 1..], c)
  }

  predicate Digit(c: char) { '0' <= c <= '9' }
  predicate Letter(c: char) { 'a' <= c <= 'z' || 'A' <= c <= 'Z' }
  predicate Digits(s: string) { s != "" && forall i :: 0 <= i < |s| ==> Digit(s[i]) }
  predicate IdentText(s: string) { s != "" && forall i :: 0 <= i < |s| ==> Digit(s[i]) || Letter(s[i]) || s[i] == '-' }

  function Value(s: string): nat {
    if s == "" || !Digit(s[|s| - 1]) then 0 else 10 * Value(s[..|s| - 1]) + (s[|s| - 1] as int - '0' as int)
  }

  function Fold(c: char): char { if 'A' <= c <= 'Z' then (c as int + 32) as char else c }
  function Folded(s: string): string { if s == "" then "" else [Fold(s[0])] + Folded(s[1..]) }

  // ---- Keys ----

  function IdentOf(part: string): Ident { if Digits(part) then Num(Value(part)) else Text(Folded(part)) }

  function Idents(parts: seq<string>): Option<seq<Ident>> {
    if parts == [] then Some([])
    else
      var rest := Idents(parts[..|parts| - 1]);
      var part := parts[|parts| - 1];
      if rest.None? || !IdentText(part) then None else Some(rest.value + [IdentOf(part)])
  }

  function Numbers(parts: seq<string>): seq<nat> { if parts == [] then [] else [Value(parts[0])] + Numbers(parts[1..]) }

  /** The key of a package version: two or three numbers, a missing third read as zero, and the pre-release
      identifiers. */
  function PackageKey(value: string): Option<Key> {
    var candidate := value[..Cut(value, '+')];
    var i := Cut(candidate, '-');
    var parts := Split(candidate[..i], '.');
    if |parts| !in {2, 3} || exists k :: 0 <= k < |parts| && !Digits(parts[k]) then None
    else
      var numbers := Numbers(parts) + if |parts| == 2 then [0] else [];
      if i == |candidate| then Some(Key(numbers, true, []))
      else if candidate[i + 1..] == "" then None
      else
        var prerelease := Idents(Split(candidate[i + 1..], '.'));
        if prerelease.None? then None else Some(Key(numbers, false, prerelease.value))
  }

  method VersionKey(value: string) returns (key: Option<Key>)
    ensures key == PackageKey(value)
  {
    hide Split, Numbers, Digits, IdentText, IdentOf;
    var candidate := value[..Cut(value, '+')];
    var i := Cut(candidate, '-');
    var parts := Split(candidate[..i], '.');
    if |parts| !in {2, 3} || exists k :: 0 <= k < |parts| && !Digits(parts[k]) { return None; }
    var numbers := Numbers(parts) + if |parts| == 2 then [0] else [];
    if i == |candidate| { return Some(Key(numbers, true, [])); }
    if candidate[i + 1..] == "" { return None; }
    var labels := Split(candidate[i + 1..], '.');
    var prerelease: seq<Ident> := [];
    var k := 0;
    while k < |labels|
      invariant 0 <= k <= |labels| && Idents(labels[..k]) == Some(prerelease)
    {
      assert labels[..k + 1][..k] == labels[..k];
      if !IdentText(labels[k]) {
        NoIdents(labels, k + 1);
        return None;
      }
      prerelease := prerelease + [IdentOf(labels[k])];
      k := k + 1;
    }
    assert labels[..k] == labels;
    key := Some(Key(numbers, false, prerelease));
  }

  lemma {:induction false} NoIdents(parts: seq<string>, k: nat)
    requires k <= |parts| && Idents(parts[..k]).None?
    ensures Idents(parts).None?
    decreases |parts|
  {
    if k < |parts| {
      assert parts[..|parts| - 1][..k] == parts[..k];
      NoIdents(parts[..|parts| - 1], k);
    } else {
      assert parts[..k] == parts;
    }
  }

  // ---- Orders ----

  /** A comparison that orders its type totally: negative below, zero for equal, positive above. */
  ghost predicate Lawful<T(!new)>(cmp: (T, T) -> int) {
    && (forall x, y :: cmp(x, y) == 0 <==> x == y)
    && (forall x, y :: cmp(x, y) < 0 <==> cmp(y, x) > 0)
    && (forall x, y, z :: cmp(x, y) <= 0 && cmp(y, z) <= 0 ==> cmp(x, z) <= 0)
  }

  /** Tuples compare by their first difference, and a proper prefix is smaller. */
  function Lex<T>(cmp: (T, T) -> int, a: seq<T>, b: seq<T>): int {
    if a == [] then (if b == [] then 0 else -1)
    else if b == [] then 1
    else if cmp(a[0], b[0]) != 0 then cmp(a[0], b[0])
    else Lex(cmp, a[1..], b[1..])
  }

  function CompareChar(a: char, b: char): int { a as int - b as int }
  function CompareNat(a: nat, b: nat): int { a - b }
  function CompareIdent(a: Ident, b: Ident): int {
    match (a, b)
    case (Num(m), Num(n)) => CompareNat(m, n)
    case (Num(_), Text(_)) => -1
    case (Text(_), Num(_)) => 1
    case (Text(s), Text(t)) => Lex(CompareChar, s, t)
  }
  function CompareKey(a: Key, b: Key): int {
    var numbers := Lex(CompareNat, a.numbers, b.numbers);
    if numbers != 0 then numbers
    else if a.release != b.release then (if b.release then -1 else 1)
    else Lex(CompareIdent, a.prerelease, b.prerelease)
  }

  lemma {:induction false} LexEqual<T(!new)>(cmp: (T, T) -> int, a: seq<T>, b: seq<T>)
    requires Lawful(cmp)
    ensures Lex(cmp, a, b) == 0 <==> a == b
    decreases |a|
  {
    if a != [] && b != [] {
      LexEqual(cmp, a[1..], b[1..]);
      assert a == [a[0]] + a[1..] && b == [b[0]] + b[1..];
    }
  }

  lemma {:induction false} LexOpposite<T(!new)>(cmp: (T, T) -> int, a: seq<T>, b: seq<T>)
    requires Lawful(cmp)
    ensures Lex(cmp, a, b) < 0 <==> Lex(cmp, b, a) > 0
    decreases |a|
  {
    if a != [] && b != [] { LexOpposite(cmp, a[1..], b[1..]); }
  }

  lemma {:induction false} LexTransitive<T(!new)>(cmp: (T, T) -> int, a: seq<T>, b: seq<T>, c: seq<T>)
    requires Lawful(cmp) && Lex(cmp, a, b) <= 0 && Lex(cmp, b, c) <= 0
    ensures Lex(cmp, a, c) <= 0
    decreases |a|
  {
    if a != [] && b != [] && c != [] {
      assert cmp(a[0], b[0]) <= 0 && cmp(b[0], c[0]) <= 0;
      if cmp(a[0], c[0]) == 0 {
        assert a[0] == b[0] == c[0];
        LexTransitive(cmp, a[1..], b[1..], c[1..]);
      }
    }
  }

  lemma {:induction false} SimpleOrdersAreLawful()
    ensures Lawful(CompareChar) && Lawful(CompareNat)
  {
  }

  lemma {:induction false} IdentsAreOrdered()
    ensures Lawful(CompareIdent)
  {
    SimpleOrdersAreLawful();
    forall x, y ensures CompareIdent(x, y) == 0 <==> x == y {
      if x.Text? && y.Text? { LexEqual(CompareChar, x.text, y.text); }
    }
    forall x, y ensures CompareIdent(x, y) < 0 <==> CompareIdent(y, x) > 0 {
      if x.Text? && y.Text? { LexOpposite(CompareChar, x.text, y.text); }
    }
    forall x, y, z | CompareIdent(x, y) <= 0 && CompareIdent(y, z) <= 0 ensures CompareIdent(x, z) <= 0 {
      if x.Text? && y.Text? && z.Text? { LexTransitive(CompareChar, x.text, y.text, z.text); }
    }
  }

  /** Keys are totally ordered, so versions are totally preordered by them. */
  lemma {:induction false} KeysAreOrdered()
    ensures Lawful(CompareKey)
  {
    SimpleOrdersAreLawful();
    IdentsAreOrdered();
    hide Lawful;
    forall x, y ensures CompareKey(x, y) == 0 <==> x == y { KeyEqual(x, y); }
    forall x, y ensures CompareKey(x, y) < 0 <==> CompareKey(y, x) > 0 { KeyOpposite(x, y); }
    forall x, y, z | CompareKey(x, y) <= 0 && CompareKey(y, z) <= 0 ensures CompareKey(x, z) <= 0 {
      KeyTransitive(x, y, z);
    }
    LawfulKeys();
  }

  lemma {:induction false} LawfulKeys()
    requires forall x, y :: CompareKey(x, y) == 0 <==> x == y
    requires forall x, y :: CompareKey(x, y) < 0 <==> CompareKey(y, x) > 0
    requires forall x, y, z :: CompareKey(x, y) <= 0 && CompareKey(y, z) <= 0 ==> CompareKey(x, z) <= 0
    ensures Lawful(CompareKey)
  {
    hide CompareKey;
  }

  lemma {:induction false} KeyEqual(x: Key, y: Key)
    requires Lawful(CompareNat) && Lawful(CompareIdent)
    ensures CompareKey(x, y) == 0 <==> x == y
  {
    LexEqual(CompareNat, x.numbers, y.numbers);
    LexEqual(CompareIdent, x.prerelease, y.prerelease);
  }

  lemma {:induction false} KeyOpposite(x: Key, y: Key)
    requires Lawful(CompareNat) && Lawful(CompareIdent)
    ensures CompareKey(x, y) < 0 <==> CompareKey(y, x) > 0
  {
    LexOpposite(CompareNat, x.numbers, y.numbers);
    LexOpposite(CompareNat, y.numbers, x.numbers);
    LexOpposite(CompareIdent, x.prerelease, y.prerelease);
  }

  lemma {:induction false} KeyTransitive(x: Key, y: Key, z: Key)
    requires Lawful(CompareNat) && Lawful(CompareIdent) && CompareKey(x, y) <= 0 && CompareKey(y, z) <= 0
    ensures CompareKey(x, z) <= 0
  {
    hide Lex;
    LexTransitive(CompareNat, x.numbers, y.numbers, z.numbers);
    LexEqual(CompareNat, x.numbers, z.numbers);
    LexEqual(CompareNat, x.numbers, y.numbers);
    LexEqual(CompareNat, y.numbers, z.numbers);
    if x.numbers == y.numbers == z.numbers && x.release == y.release == z.release {
      LexTransitive(CompareIdent, x.prerelease, y.prerelease, z.prerelease);
    } else if x.numbers == z.numbers {
      LexOpposite(CompareNat, x.numbers, y.numbers);
    }
  }

  // ---- Semantic Versioning 2.0.0, section 11 ----

  /** Lexically smaller in code points: at the first difference, or as a proper prefix. */
  ghost predicate FirstDifference<T(!new)>(cmp: (T, T) -> int, a: seq<T>, b: seq<T>) {
    exists k :: Differs(cmp, a, b, k)
  }

  ghost predicate Differs<T(!new)>(cmp: (T, T) -> int, a: seq<T>, b: seq<T>, k: int) {
    0 <= k <= |a| && k <= |b| && a[..k] == b[..k] && ((k == |a| < |b|) || (k < |a| && k < |b| && cmp(a[k], b[k]) < 0))
  }

  /** Rule 11.4: numeric identifiers numerically, others lexically, numeric below others. */
  ghost predicate IdentBelow(a: string, b: string) {
    if Digits(a) && Digits(b) then Value(a) < Value(b)
    else if Digits(a) || Digits(b) then Digits(a)
    else FirstDifference(CompareChar, Folded(a), Folded(b))
  }

  /** Rules 11.2 to 11.4: numbers first, then a pre-release below its release, then the identifiers from left to
      right. */
  ghost predicate Precedes(a: Key, b: Key) {
    || FirstDifference(CompareNat, a.numbers, b.numbers)
    || (a.numbers == b.numbers && !a.release && b.release)
    || (a.numbers == b.numbers && a.release == b.release && FirstDifference(CompareIdent, a.prerelease, b.prerelease))
  }

  lemma {:induction false} LexIsFirstDifference<T(!new)>(cmp: (T, T) -> int, a: seq<T>, b: seq<T>)
    requires Lawful(cmp)
    ensures Lex(cmp, a, b) < 0 <==> FirstDifference(cmp, a, b)
    decreases |a|
  {
    if a == [] || b == [] {
      assert Differs(cmp, a, b, 0) <==> a == [] && b != [];
    } else {
      LexIsFirstDifference(cmp, a[1..], b[1..]);
      if k :| Differs(cmp, a[1..], b[1..], k) && a[0] == b[0] {
        assert a[..k + 1] == [a[0]] + a[1..][..k] && b[..k + 1] == [b[0]] + b[1..][..k];
        assert Differs(cmp, a, b, k + 1);
      }
      if k :| Differs(cmp, a, b, k) && k > 0 {
        assert a[..k][0] == b[..k][0];
        assert a[1..][..k - 1] == a[..k][1..] && b[1..][..k - 1] == b[..k][1..];
        assert Differs(cmp, a[1..], b[1..], k - 1);
      }
      if cmp(a[0], b[0]) < 0 { assert Differs(cmp, a, b, 0); }
    }
  }

  /** Identifiers compare as rule 11.4 says, up to letter case. */
  lemma {:induction false} IdentsFollowSemVer(a: string, b: string)
    ensures CompareIdent(IdentOf(a), IdentOf(b)) < 0 <==> IdentBelow(a, b)
  {
    SimpleOrdersAreLawful();
    LexIsFirstDifference(CompareChar, Folded(a), Folded(b));
  }

  /** The order of keys is the precedence of section 11, up to letter case. */
  lemma {:induction false} KeysFollowSemVer(a: Key, b: Key)
    ensures CompareKey(a, b) < 0 <==> Precedes(a, b)
  {
    SimpleOrdersAreLawful();
    IdentsAreOrdered();
    hide Lawful;
    LexIsFirstDifference(CompareNat, a.numbers, b.numbers);
    LexIsFirstDifference(CompareIdent, a.prerelease, b.prerelease);
    LexEqual(CompareNat, a.numbers, b.numbers);
  }

  // ---- Whole versions ----

  /** What comes before the labels of a version, and its pre-release label, with its separator when there is one. */
  function Unbuilt(v: string): string { v[..Cut(v, '+')] }
  function Core(v: string): string { Unbuilt(v)[..Cut(Unbuilt(v), '-')] }
  function Released(v: string): bool { Cut(Unbuilt(v), '-') == |Unbuilt(v)| }
  function Labels(v: string): seq<string> {
    if Released(v) then [] else Split(Unbuilt(v)[Cut(Unbuilt(v), '-') + 1..], '.')
  }
  function ThreeOf(v: string): seq<nat> {
    Numbers(Split(Core(v), '.')) + if |Split(Core(v), '.')| == 2 then [0] else []
  }

  ghost predicate SameIdent(a: string, b: string) {
    if Digits(a) || Digits(b) then Digits(a) && Digits(b) && Value(a) == Value(b) else Folded(a) == Folded(b)
  }

  /** Rule 11.4 on the identifiers themselves: the first one that differs decides, and a longer list wins over its
      prefix. */
  ghost predicate LabelsBelow(a: seq<string>, b: seq<string>) { exists k :: LabelsDiffer(a, b, k) }

  ghost predicate LabelsDiffer(a: seq<string>, b: seq<string>, k: int) {
    && 0 <= k <= |a| && k <= |b| && (forall j :: 0 <= j < k ==> SameIdent(a[j], b[j]))
    && (k == |a| < |b| || (k < |a| && k < |b| && IdentBelow(a[k], b[k])))
  }

  /** Section 11 on version strings: numbers, then pre-release before release, then the identifiers; build labels do not
      count. */
  ghost predicate VersionPrecedes(v: string, w: string) {
    || FirstDifference(CompareNat, ThreeOf(v), ThreeOf(w))
    || (ThreeOf(v) == ThreeOf(w) && !Released(v) && Released(w))
    || (ThreeOf(v) == ThreeOf(w) && Released(v) == Released(w) && LabelsBelow(Labels(v), Labels(w)))
  }

  lemma {:induction false} IdentsAreOf(parts: seq<string>)
    requires Idents(parts).Some?
    ensures |Idents(parts).value| == |parts|
    ensures forall i :: 0 <= i < |parts| ==> Idents(parts).value[i] == IdentOf(parts[i])
  {
    if parts != [] { IdentsAreOf(parts[..|parts| - 1]); }
  }

  lemma {:induction false} KeyParts(v: string)
    requires PackageKey(v).Some?
    ensures var key := PackageKey(v).value;
            && key.numbers == ThreeOf(v) && key.release == Released(v) && |key.prerelease| == |Labels(v)|
            && forall i :: 0 <= i < |Labels(v)| ==> key.prerelease[i] == IdentOf(Labels(v)[i])
  {
    if !Released(v) { IdentsAreOf(Labels(v)); }
  }

  lemma {:induction false} SameIdentIsSame(a: string, b: string)
    ensures IdentOf(a) == IdentOf(b) <==> SameIdent(a, b)
  {
  }

  lemma {:induction false} LabelsFollow(a: seq<string>, b: seq<string>, x: seq<Ident>, y: seq<Ident>)
    requires |x| == |a| && |y| == |b|
    requires (forall i :: 0 <= i < |a| ==> x[i] == IdentOf(a[i])) && forall i :: 0 <= i < |b| ==> y[i] == IdentOf(b[i])
    ensures FirstDifference(CompareIdent, x, y) <==> LabelsBelow(a, b)
  {
    hide IdentOf, CompareIdent, IdentBelow, SameIdent;
    forall k: int ensures Differs(CompareIdent, x, y, k) <==> LabelsDiffer(a, b, k) {
      if 0 <= k <= |a| && k <= |b| {
        forall j | 0 <= j < k ensures x[j] == y[j] <==> SameIdent(a[j], b[j]) { SameIdentIsSame(a[j], b[j]); }
        assert x[..k] == y[..k] <==> forall j :: 0 <= j < k ==> x[j] == y[j] by { PrefixesEqual(x, y, k); }
        if k < |a| && k < |b| { IdentsFollowSemVer(a[k], b[k]); }
      }
    }
  }

  lemma {:induction false} PrefixesEqual(x: seq<Ident>, y: seq<Ident>, k: nat)
    requires k <= |x| && k <= |y|
    ensures x[..k] == y[..k] <==> forall j :: 0 <= j < k ==> x[j] == y[j]
  {
    if x[..k] == y[..k] {
      forall j | 0 <= j < k ensures x[j] == y[j] { assert x[..k][j] == y[..k][j]; }
    }
  }

  /** The order the program gives two version strings it can read is their precedence under section 11, up to letter
      case. */
  lemma {:induction false} VersionsFollowSemVer(v: string, w: string)
    requires PackageKey(v).Some? && PackageKey(w).Some?
    ensures CompareKey(PackageKey(v).value, PackageKey(w).value) < 0 <==> VersionPrecedes(v, w)
  {
    hide PackageKey, CompareKey, ThreeOf, Released, Labels, FirstDifference, LabelsBelow;
    KeyParts(v);
    KeyParts(w);
    KeysFollowSemVer(PackageKey(v).value, PackageKey(w).value);
    LabelsFollow(Labels(v), Labels(w), PackageKey(v).value.prerelease, PackageKey(w).value.prerelease);
  }

  // ---- What the parts of a version say ----

  function DigitOf(n: nat): char
    requires n < 10
  {
    "0123456789"[n]
  }

  /** A number in decimal notation. */
  function Decimal(n: nat): string { (if n < 10 then "" else Decimal(n / 10)) + [DigitOf(n % 10)] }

  lemma {:induction false} OneDigitMore(s: string, c: char)
    requires Digit(c) && (s == "" || Digits(s))
    ensures Digits(s + [c]) && Value(s + [c]) == 10 * Value(s) + (c as int - '0' as int)
  {
    assert (s + [c])[..|s|] == s;
  }

  lemma {:induction false} DigitOfIs(n: nat)
    requires n < 10
    ensures Digit(DigitOf(n)) && DigitOf(n) as int - '0' as int == n
  {
  }

  /** Digits are read as the number they write. */
  lemma {:induction false} DecimalIsRead(n: nat)
    ensures Digits(Decimal(n)) && Value(Decimal(n)) == n
  {
    assert Value("") == 0;
    hide Digit, Digits, Value, DigitOf;
    DigitOfIs(n % 10);
    if n >= 10 {
      DecimalIsRead(n / 10);
      OneDigitMore(Decimal(n / 10), DigitOf(n % 10));
    } else {
      OneDigitMore("", DigitOf(n % 10));
    }
  }

  /** Zeros in front of a number do not count. */
  lemma {:induction false} LeadingZero(s: string)
    ensures Value("0" + s) == Value(s)
  {
    if s == "" {
      assert "0" + s == "0" && Value("0"[..0]) == 0;
    } else {
      var n := |s| - 1;
      assert ("0" + s)[..|s|] == "0" + s[..n] && ("0" + s)[|s|] == s[n];
      LeadingZero(s[..n]);
    }
  }

  const UPPER := "ABCDEFGHIJKLMNOPQRSTUVWXYZ"
  const LOWER := "abcdefghijklmnopqrstuvwxyz"

  /** Letters lose their case and nothing else changes. */
  ghost predicate CaseLost(from: char, to: char) {
    if from in UPPER then exists k :: 0 <= k < 26 && from == UPPER[k] && to == LOWER[k] else to == from
  }

  lemma {:induction false} FoldLosesCase(c: char)
    ensures CaseLost(c, Fold(c))
  {
    if 'A' <= c <= 'Z' {
      var k := c as int - 'A' as int;
      assert UPPER[k] == c && LOWER[k] == Fold(c);
    }
  }

  lemma {:induction false} FoldedAt(s: string, i: nat)
    requires i < |s|
    ensures |Folded(s)| == |s| && CaseLost(s[i], Folded(s)[i])
  {
    hide CaseLost;
    FoldLosesCase(s[0]);
    if i > 0 { FoldedAt(s[1..], i - 1); } else { FoldedRest(s[1..]); }
  }

  lemma {:induction false} FoldedRest(s: string)
    ensures |Folded(s)| == |s|
  {
    if s != "" { FoldedRest(s[1..]); }
  }

  /** The parts put together again. */
  function Rejoined(parts: seq<string>, c: char): string
    requires parts != []
  {
    if |parts| == 1 then parts[0] else parts[0] + [c] + Rejoined(parts[1..], c)
  }

  /** Splitting loses nothing but the separators, and leaves none in a part. */
  lemma {:induction false} SplitIsExact(s: string, c: char)
    ensures Rejoined(Split(s, c), c) == s && forall i :: 0 <= i < |Split(s, c)| ==> c !in Split(s, c)[i]
    decreases |s|
  {
    var i := Cut(s, c);
    if i < |s| {
      SplitIsExact(s[i + 1..], c);
      var rest := Split(s[i + 1..], c);
      assert ([s[..i]] + rest)[1..] == rest;
      assert s == s[..i] + [c] + s[i + 1..];
    }
  }

  predicate Numeral(s: string) { s != "" && forall i :: 0 <= i < |s| ==> s[i] in "0123456789" }

  /** Letters, digits and hyphens, at least one. */
  predicate Identifier(s: string) {
    s != "" && forall i :: 0 <= i < |s| ==> s[i] in "0123456789" || s[i] in UPPER || s[i] in LOWER || s[i] == '-'
  }

  lemma {:induction false} DigitIsOne(c: char)
    ensures Digit(c) <==> c in "0123456789"
  {
    if Digit(c) { assert c == "0123456789"[c as int - '0' as int]; }
  }

  lemma {:induction false} UpperIs(c: char)
    ensures c in UPPER <==> 'A' <= c <= 'Z'
  {
    if 'A' <= c <= 'Z' { assert c == UPPER[c as int - 'A' as int]; }
  }

  lemma {:induction false} LowerIs(c: char)
    ensures c in LOWER <==> 'a' <= c <= 'z'
  {
    if 'a' <= c <= 'z' { assert c == LOWER[c as int - 'a' as int]; }
  }

  lemma {:induction false} LetterIsOne(c: char)
    ensures Letter(c) <==> c in UPPER || c in LOWER
  {
    assert c in UPPER <==> 'A' <= c <= 'Z' by { UpperIs(c); }
    assert c in LOWER <==> 'a' <= c <= 'z' by { LowerIs(c); }
  }

  lemma {:induction false} Alphabets(s: string)
    ensures Digits(s) <==> Numeral(s)
    ensures IdentText(s) <==> Identifier(s)
  {
    hide Digit, Letter;
    forall i | 0 <= i < |s| ensures Digit(s[i]) <==> s[i] in "0123456789" { DigitIsOne(s[i]); }
    forall i | 0 <= i < |s| ensures Letter(s[i]) <==> s[i] in UPPER || s[i] in LOWER { LetterIsOne(s[i]); }
  }

  /** A version can be read exactly when it has two or three numbers and, after a hyphen, nothing but identifiers. */
  lemma {:induction false} ReadableExactly(v: string)
    ensures PackageKey(v).Some?
            <==> |Split(Core(v), '.')| in {2, 3} && (forall part <- Split(Core(v), '.') :: Numeral(part))
                 && forall name <- Labels(v) :: Identifier(name)
  {
    hide Split, Numbers, Digits, IdentText, Numeral, Identifier;
    forall part ensures Digits(part) <==> Numeral(part) { Alphabets(part); }
    forall name ensures IdentText(name) <==> Identifier(name) { Alphabets(name); }
    if !Released(v) {
      IdentsAllOrNone(Labels(v));
      NoEmptyLabel(v);
    }
  }

  /** An empty label is one empty identifier. */
  lemma {:induction false} NoEmptyLabel(v: string)
    requires !Released(v)
    ensures Unbuilt(v)[Cut(Unbuilt(v), '-') + 1..] == "" ==> "" in Labels(v)
    ensures !Identifier("")
  {
    NoCut("", '.');
    if Unbuilt(v)[Cut(Unbuilt(v), '-') + 1..] == "" { assert Labels(v)[0] == ""; }
  }

  lemma {:induction false} IdentsAllOrNone(parts: seq<string>)
    ensures Idents(parts).Some? <==> forall part <- parts :: IdentText(part)
  {
    hide IdentText;
    if parts != [] {
      var n := |parts| - 1;
      IdentsAllOrNone(parts[..n]);
      assert parts == parts[..n] + [parts[n]];
    }
  }

  // ---- A missing third number ----

  /** Nothing, or a pre-release or build label. */
  predicate Suffix(s: string) { s == "" || s[0] in "-+" }

  /** A version of two numbers has the key of the one with a third number zero, with or without labels, and is
      unreadable exactly when that one is. */
  lemma {:induction false} MissingPatchIsZero(major: string, minor: string, suffix: string)
    requires Digits(major) && Digits(minor) && Suffix(suffix)
    ensures PackageKey(major + "." + minor + suffix) == PackageKey(major + "." + minor + ".0" + suffix)
  {
    hide PackageKey, Split, Value;
    var two, three := major + "." + minor, major + "." + minor + ".0";
    assert three == major + "." + (minor + "." + "0");
    NumbersSplit(major, minor);
    NumbersSplit(major, minor + "." + "0");
    NumbersSplit(minor, "0");
    NoCut(minor, '.');
    NoCut("0", '.');
    NumbersOf([major, minor]);
    NumbersOf([major, minor, "0"]);
    ZeroIsZero();
    SuffixedKey(two, [major, minor], suffix);
    SuffixedKey(three, [major, minor, "0"], suffix);
    assert Numbers([major, minor]) + [0] == Numbers([major, minor, "0"]) + [];
  }

  lemma {:induction false} ZeroIsZero()
    ensures Value("0") == 0 && Digits("0")
  {
  }

  /** The key a suffix makes of the numbers before it. */
  function LabelledKey(numbers: seq<nat>, suffix: string): Option<Key> {
    var t := suffix[..Cut(suffix, '+')];
    if t == "" then Some(Key(numbers, true, []))
    else if t[1..] == "" then None
    else
      var prerelease := Idents(Split(t[1..], '.'));
      if prerelease.None? then None else Some(Key(numbers, false, prerelease.value))
  }

  lemma {:induction false} CutLater(head: string, tail: string, c: char)
    requires forall i :: 0 <= i < |head| ==> head[i] != c
    ensures Cut(head + tail, c) == |head| + Cut(tail, c)
  {
    if head == "" {
      assert head + tail == tail;
    } else {
      assert (head + tail)[0] == head[0] && (head + tail)[1..] == head[1..] + tail;
      CutLater(head[1..], tail, c);
    }
  }

  lemma {:induction false} SuffixedKey(core: string, parts: seq<string>, suffix: string)
    requires (forall i :: 0 <= i < |core| ==> core[i] !in "+-") && Split(core, '.') == parts && |parts| in {2, 3}
    requires (forall k :: 0 <= k < |parts| ==> Digits(parts[k])) && Suffix(suffix)
    ensures PackageKey(core + suffix) == LabelledKey(Numbers(parts) + if |parts| == 2 then [0] else [], suffix)
  {
    hide Split, Idents, Numbers, Digits;
    var value, t := core + suffix, suffix[..Cut(suffix, '+')];
    CutLater(core, suffix, '+');
    assert value[..Cut(value, '+')] == core + t;
    CutLater(core, t, '-');
    assert (core + t)[..|core|] == core;
    if t != "" { assert t[0] == '-' && Cut(t, '-') == 0 && (core + t)[|core| + 1..] == t[1..]; }
  }

  /** Digits and dots hold no sign, and digits hold no dot. */
  lemma {:induction false} NumbersSplit(head: string, tail: string)
    requires Digits(head)
    ensures Split(head + "." + tail, '.') == [head] + Split(tail, '.')
    ensures (forall i :: 0 <= i < |tail| ==> tail[i] !in "+-") ==>
              forall i :: 0 <= i < |head + "." + tail| ==> (head + "." + tail)[i] !in "+-"
  {
    hide Split;
    SplitFirst(head, tail, '.');
  }

  lemma {:induction false} NumbersOf(parts: seq<string>)
    ensures |Numbers(parts)| == |parts| && forall i :: 0 <= i < |parts| ==> Numbers(parts)[i] == Value(parts[i])
  {
    if parts != [] { NumbersOf(parts[1..]); }
  }

  lemma {:induction false} NoCut(s: string, c: char)
    requires forall i :: 0 <= i < |s| ==> s[i] != c
    ensures Cut(s, c) == |s| && Split(s, c) == [s] && s[..|s|] == s
  {
  }

  lemma {:induction false} SplitFirst(head: string, tail: string, c: char)
    requires forall i :: 0 <= i < |head| ==> head[i] != c
    ensures Cut(head + [c] + tail, c) == |head| && Split(head + [c] + tail, c) == [head] + Split(tail, c)
  {
    var s := head + [c] + tail;
    assert s[|head|] == c && forall i :: 0 <= i < |head| ==> s[i] == head[i];
    assert s[..|head|] == head && s[|head| + 1..] == tail;
  }

  /** Three numbers are read as these numbers, and a version without labels is a release. */
  lemma {:induction false} NumbersAreRead(major: nat, minor: nat, patch: nat)
    ensures PackageKey(Decimal(major) + "." + Decimal(minor) + "." + Decimal(patch))
            == Some(Key([major, minor, patch], true, []))
  {
    hide PackageKey, Split, Value, Decimal;
    DecimalIsRead(major);
    DecimalIsRead(minor);
    DecimalIsRead(patch);
    var x, y, z := Decimal(major), Decimal(minor), Decimal(patch);
    assert x + "." + y + "." + z == x + "." + (y + "." + z);
    NumbersSplit(x, y + "." + z);
    NumbersSplit(y, z);
    NoCut(z, '.');
    NumbersOf([x, y, z]);
    SuffixedKey(x + "." + y + "." + z, [x, y, z], "");
    assert x + "." + y + "." + z + "" == x + "." + y + "." + z;
    assert Numbers([x, y, z]) + [] == [major, minor, patch];
  }

  // ---- Version expressions ----

  type KeyOf = string -> Option<Key>

  predicate Space(c: char) { c in {' ', '\t', '\n', '\r'} || c as int in {11, 12} || 28 <= c as int <= 31 }
  predicate Readable(expression: string) {
    expression != "" && forall i :: 0 <= i < |expression| ==> !Space(expression[i]) && expression[i] != '*'
  }

  predicate Above(lower: Key, actual: Key, inclusive: bool) {
    if inclusive then CompareKey(actual, lower) >= 0 else CompareKey(actual, lower) > 0
  }
  predicate Below(actual: Key, upper: Key, inclusive: bool) {
    if inclusive then CompareKey(actual, upper) <= 0 else CompareKey(actual, upper) < 0
  }

  /** Whether a version satisfies an expression; none when either cannot be read. */
  function Matches(keyOf: KeyOf, version: string, expression: string): Option<bool> {
    if !Readable(expression) then None
    else
      var actual := keyOf(version);
      if actual.None? then None
      else if expression[0] in "[(" then Bounded(keyOf, actual.value, expression)
      else
        var minimum := keyOf(expression);
        if minimum.None? then None else Some(Above(minimum.value, actual.value, true))
  }

  function Bounded(keyOf: KeyOf, actual: Key, expression: string): Option<bool>
    requires expression != "" && expression[0] in "[("
  {
    var last := expression[|expression| - 1];
    if last !in ")]" then None
    else
      var body := expression[1..|expression| - 1];
      if Cut(body, ',') == |body| then
        if expression[0] != '[' || last != ']' || body == "" then None
        else
          var exact := keyOf(body);
          if exact.None? then None else Some(CompareKey(actual, exact.value) == 0)
      else
        var endpoints := Split(body, ',');
        if |endpoints| != 2 || endpoints[0] == "" || endpoints[1] == "" then None
        else
          var lower, upper := keyOf(endpoints[0]), keyOf(endpoints[1]);
          if lower.None? || upper.None? || CompareKey(lower.value, upper.value) > 0 then None
          else Some(Above(lower.value, actual, expression[0] == '[') && Below(actual, upper.value, last == ']'))
  }

  predicate Plain(s: string) { s != "" && forall i :: 0 <= i < |s| ==> !Space(s[i]) && s[i] !in "*," }

  lemma {:induction false} Opposites(a: Key, b: Key)
    ensures (CompareKey(a, b) < 0 <==> CompareKey(b, a) > 0) && (CompareKey(a, b) == 0 <==> CompareKey(b, a) == 0)
  {
    KeysAreOrdered();
  }

  /** An expression between two endpoints: none unless both can be read and are in order, and otherwise exactly the
      versions between them, each endpoint included or not as its bracket says. */
  lemma {:induction false} IntervalIsExact(keyOf: KeyOf, version: string, open: char, x: string, y: string, close: char)
    requires open in "[(" && close in ")]" && Plain(x) && Plain(y) && keyOf(version).Some?
    ensures Matches(keyOf, version, [open] + x + "," + y + [close])
            == if keyOf(x).None? || keyOf(y).None? || CompareKey(keyOf(x).value, keyOf(y).value) > 0 then None
               else
                 var low := CompareKey(keyOf(x).value, keyOf(version).value);
                 var high := CompareKey(keyOf(version).value, keyOf(y).value);
                 Some((low < 0 || (open == '[' && low == 0)) && (high < 0 || (close == ']' && high == 0)))
  {
    hide CompareKey, Split, Space;
    if keyOf(x).Some? { Opposites(keyOf(x).value, keyOf(version).value); }
    var expression := [open] + x + "," + y + [close];
    var body := x + "," + y;
    assert expression[1..|expression| - 1] == body && expression[0] == open && expression[|expression| - 1] == close;
    IsReadable(open, x, y, close);
    SplitFirst(x, y, ',');
    NoCut(y, ',');
    assert Split(body, ',') == [x, y];
  }

  lemma {:induction false} IsReadable(open: char, x: string, y: string, close: char)
    requires open in "[(" && close in ")]" && Plain(x) && Plain(y)
    ensures Readable([open] + x + "," + y + [close])
  {
    var expression := [open] + x + "," + y + [close];
    assert !Space(open) && !Space(close) && !Space(',') && open != '*' && close != '*';
    forall i | 0 <= i < |expression| ensures !Space(expression[i]) && expression[i] != '*' {
      if 1 <= i <= |x| { assert expression[i] == x[i - 1]; }
      else if |x| + 2 <= i < |x| + 2 + |y| { assert expression[i] == y[i - |x| - 2]; }
    }
  }

  /** What is written between brackets is one version or two with a comma between them; nothing else in brackets can be
      read. */
  lemma {:induction false} BracketsHoldOneOrTwo(keyOf: KeyOf, version: string, e: string)
    requires Matches(keyOf, version, e).Some? && e != "" && e[0] in "[("
    ensures (exists x :: Plain(x) && e == "[" + x + "]")
            || exists open, x, y, close :: open in "[(" && close in ")]" && Plain(x) && Plain(y)
                                           && e == [open] + x + "," + y + [close]
  {
    hide CompareKey, Split, Space, Plain;
    var open, body, close := e[0], e[1..|e| - 1], e[|e| - 1];
    assert e == [open] + body + [close];
    assert forall i :: 0 <= i < |body| ==> body[i] == e[i + 1];
    if Cut(body, ',') == |body| {
      IsPlain(body);
      assert e == "[" + body + "]";
    } else {
      SplitIsExact(body, ',');
      var x, y := Split(body, ',')[0], Split(body, ',')[1];
      assert Rejoined(Split(body, ',')[1..], ',') == y && body == x + [','] + y;
      assert forall i :: 0 <= i < |x| ==> x[i] == body[i];
      assert forall i :: 0 <= i < |y| ==> y[i] == body[|x| + 1 + i];
      IsPlain(x);
      IsPlain(y);
      assert e == [open] + x + "," + y + [close];
    }
  }

  lemma {:induction false} IsPlain(s: string)
    requires s != "" && forall i :: 0 <= i < |s| ==> !Space(s[i]) && s[i] != '*' && s[i] != ','
    ensures Plain(s)
  {
  }

  /** The code points of the white space of ASCII. */
  const BLANKS: set<int> := {9, 10, 11, 12, 13, 28, 29, 30, 31, 32}

  /** An expression that is empty, or holds white space or a star, cannot be read. */
  lemma {:induction false} BlankOrStarIsUnreadable(keyOf: KeyOf, version: string, e: string)
    requires e == "" || exists i :: 0 <= i < |e| && (e[i] as int in BLANKS || e[i] == '*')
    ensures Matches(keyOf, version, e) == None
  {
  }

  /** A single version in brackets selects what the interval from it to itself selects. */
  lemma {:induction false} ExactIsInterval(keyOf: KeyOf, version: string, x: string)
    requires Plain(x) && keyOf(version).Some?
    ensures Matches(keyOf, version, "[" + x + "]") == Matches(keyOf, version, "[" + x + "," + x + "]")
  {
    hide Matches, CompareKey;
    KeysAreOrdered();
    IntervalIsExact(keyOf, version, '[', x, x, ']');
    assert "[" + x + "," + x + "]" == ['['] + x + "," + x + [']'];
    ExactMatches(keyOf, version, x);
  }

  lemma {:induction false} ExactMatches(keyOf: KeyOf, version: string, x: string)
    requires Plain(x) && keyOf(version).Some?
    ensures Matches(keyOf, version, "[" + x + "]")
            == if keyOf(x).None? then None else Some(CompareKey(keyOf(version).value, keyOf(x).value) == 0)
  {
    hide CompareKey, Split;
    var expression := "[" + x + "]";
    assert expression[1..|expression| - 1] == x && expression[|expression| - 1] == ']';
    NoCut(x, ',');
    forall i | 0 <= i < |expression| ensures !Space(expression[i]) && expression[i] != '*' {
      if 1 <= i <= |x| { assert expression[i] == x[i - 1]; }
    }
  }

  /** A bare version selects itself and everything above: what it selects stays selected at any higher version. */
  lemma {:induction false} MinimumIsUpwardClosed(keyOf: KeyOf, version: string, higher: string, minimum: string)
    requires minimum != "" && minimum[0] !in "[(" && Matches(keyOf, version, minimum) == Some(true)
    requires keyOf(higher).Some? && CompareKey(keyOf(version).value, keyOf(higher).value) <= 0
    ensures Matches(keyOf, higher, minimum) == Some(true)
    ensures Matches(keyOf, minimum, minimum) == Some(true)
  {
    KeysAreOrdered();
    assert CompareKey(keyOf(minimum).value, keyOf(version).value) <= 0;
  }

  /** What any expression selects is convex: a version between two selected ones is selected. */
  lemma {:induction false} SelectionIsConvex(keyOf: KeyOf, low: string, middle: string, high: string,
                                             expression: string)
    requires Matches(keyOf, low, expression) == Some(true) && Matches(keyOf, high, expression) == Some(true)
             && keyOf(middle).Some?
    requires CompareKey(keyOf(low).value, keyOf(middle).value) <= 0
             && CompareKey(keyOf(middle).value, keyOf(high).value) <= 0
    ensures Matches(keyOf, middle, expression) == Some(true)
  {
    hide CompareKey, Cut, Split, Readable;
    KeysAreOrdered();
  }
}

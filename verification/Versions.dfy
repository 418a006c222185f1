/**
  Protocol version check (crates/tetris-adapter/src/adapter/server.rs) against the grammar of
  Semantic Versioning 2.0.0: section 2 for the core numbers, 9 for pre-release identifiers and 10
  for build metadata.
*/
module Versions {
  import opened Types
  import opened Text

  const U64_MAX: nat := 0xFFFF_FFFF_FFFF_FFFF

  // ---- the check -------------------------------------------------------

  predicate IdentifierChar(c: char) {
    'a' <= c <= 'z' || 'A' <= c <= 'Z' || '0' <= c <= '9' || c == '-'
  }

  predicate ValidIdentifier(s: string, rejectLeadingZero: bool) {
    && s != []
    && (forall i :: 0 <= i < |s| ==> IdentifierChar(s[i]))
    && (!rejectLeadingZero || !AllDigits(s) || |s| == 1 || s[0] != '0')
  }

  predicate ValidIdentifiers(value: string, rejectLeadingZero: bool) {
    && value != []
    && forall i :: 0 <= i < |Split(value, '.')| ==> ValidIdentifier(Split(value, '.')[i], rejectLeadingZero)
  }

  function ParseNumeric(s: string): Option<nat> {
    if s == [] || !AllDigits(s) || (|s| > 1 && s[0] == '0') || DigitsValue(s) > U64_MAX then None
    else Some(DigitsValue(s))
  }

  /** Index of the first c, or the length. */
  function Position(s: string, c: char): (k: nat)
    ensures k <= |s| && c !in s[..k] && (k < |s| ==> s[k] == c)
  {
    if s == [] || s[0] == c then 0 else 1 + Position(s[1..], c)
  }

  /** What precedes the first hyphen, provided valid pre-release identifiers follow it. */
  function CoreOf(base: string): Option<string> {
    var d := Position(base, '-');
    if d == |base| then Some(base)
    else if ValidIdentifiers(base[d + 1..], true) then Some(base[..d])
    else None
  }

  predicate CoreCompatible(core: string) {
    var c := Split(core, '.');
    && |c| == 3 && ParseNumeric(c[0]) == Some(3)
    && ParseNumeric(c[1]).Some? && ParseNumeric(c[2]).Some?
  }

  predicate Compatible(version: string) {
    var parts := Split(version, '+');
    && !(|parts| > 1 && (!ValidIdentifiers(parts[1], false) || |parts| > 2))
    && CoreOf(parts[0]).Some? && CoreCompatible(CoreOf(parts[0]).value)
  }

  // ---- the grammar -----------------------------------------------------

  datatype Version = Version(
    major: string,
    minor: string,
    patch: string,
    preRelease: Option<seq<string>>,
    build: Option<seq<string>>)

  /** A number without leading zeros. */
  predicate Numeral(s: string) {
    s != [] && AllDigits(s) && (|s| > 1 ==> s[0] != '0')
  }

  predicate Identifiers(ids: seq<string>, noLeadingZero: bool) {
    ids != [] && forall i :: 0 <= i < |ids| ==> ValidIdentifier(ids[i], noLeadingZero)
  }

  predicate WellFormed(v: Version) {
    && Numeral(v.major) && Numeral(v.minor) && Numeral(v.patch)
    && (v.preRelease.Some? ==> Identifiers(v.preRelease.value, true))
    && (v.build.Some? ==> Identifiers(v.build.value, false))
  }

  function Core(v: Version): string {
    Join([v.major, v.minor, v.patch], '.')
  }

  function Base(v: Version): string {
    Core(v) + (if v.preRelease.Some? then ['-'] + Join(v.preRelease.value, '.') else [])
  }

  function Written(v: Version): string {
    Base(v) + (if v.build.Some? then ['+'] + Join(v.build.value, '.') else [])
  }

  /** Major version 3, with numbers that fit 64 bits. */
  predicate Acceptable(v: Version) {
    && WellFormed(v)
    && DigitsValue(v.major) == 3 && DigitsValue(v.minor) <= U64_MAX && DigitsValue(v.patch) <= U64_MAX
  }

  // ---- splitting and joining -------------------------------------------

  lemma {:induction false} JoinSplit(s: string, c: char)
    ensures Join(Split(s, c), c) == s
    ensures forall i :: 0 <= i < |Split(s, c)| ==> c !in Split(s, c)[i]
  {
    if s == [] {
    } else {
      JoinSplit(s[1..], c);
      var rest := Split(s[1..], c);
      assert s == [s[0]] + s[1..];
      if s[0] == c {
        assert ([[]] + rest)[1..] == rest;
      } else {
        var parts := [[s[0]] + rest[0]] + rest[1..];
        assert parts[1..] == rest[1..];
      }
    }
  }

  lemma {:induction false} JoinLacks(parts: seq<string>, c: char, sep: char)
    requires c != sep && forall i :: 0 <= i < |parts| ==> c !in parts[i]
    ensures c !in Join(parts, sep)
  {
    if |parts| > 1 { JoinLacks(parts[1..], c, sep); }
  }

  /** A dotted list of identifiers is valid exactly when it is a join of valid identifiers. */
  lemma IdentifiersJoin(ids: seq<string>, strict: bool)
    requires Identifiers(ids, strict)
    ensures ValidIdentifiers(Join(ids, '.'), strict)
    ensures '+' !in Join(ids, '.')
  {
    forall i | 0 <= i < |ids|
      ensures '.' !in ids[i] && '+' !in ids[i]
    {
      assert ValidIdentifier(ids[i], strict);
    }
    SplitJoin(ids, '.');
    JoinLacks(ids, '+', '.');
    assert ValidIdentifier(ids[0], strict);
  }

  lemma SplitIdentifiers(value: string, strict: bool)
    requires ValidIdentifiers(value, strict)
    ensures Identifiers(Split(value, '.'), strict) && Join(Split(value, '.'), '.') == value
  {
    JoinSplit(value, '.');
  }

  lemma {:induction false} PositionFirst(a: string, c: char, b: string)
    requires c !in a
    ensures Position(a, c) == |a| && Position(a + [c] + b, c) == |a|
  {
    if a == [] {
    } else {
      assert a == [a[0]] + a[1..];
      assert (a + [c] + b)[1..] == a[1..] + [c] + b;
      PositionFirst(a[1..], c, b);
    }
  }

  lemma CoreSplits(v: Version)
    requires WellFormed(v)
    ensures Split(Core(v), '.') == [v.major, v.minor, v.patch]
    ensures '-' !in Core(v) && '+' !in Core(v)
  {
    var numbers := [v.major, v.minor, v.patch];
    SplitJoin(numbers, '.');
    JoinLacks(numbers, '-', '.');
    JoinLacks(numbers, '+', '.');
  }

  lemma BaseParses(v: Version)
    requires WellFormed(v)
    ensures CoreOf(Base(v)) == Some(Core(v)) && '+' !in Base(v)
  {
    CoreSplits(v);
    if v.preRelease.Some? {
      var ids := Join(v.preRelease.value, '.');
      IdentifiersJoin(v.preRelease.value, true);
      PositionFirst(Core(v), '-', ids);
      assert Base(v) == Core(v) + ['-'] + ids;
      assert Base(v)[|Core(v)| + 1..] == ids && Base(v)[..|Core(v)|] == Core(v);
    } else {
      PositionFirst(Core(v), '-', []);
      assert Base(v) == Core(v);
    }
  }

  lemma CoreAccepted(v: Version)
    requires Acceptable(v)
    ensures CoreCompatible(Core(v))
  {
    CoreSplits(v);
  }

  lemma WrittenCompatible(v: Version)
    requires Acceptable(v)
    ensures Compatible(Written(v))
  {
    hide CoreCompatible, Base, CoreOf, Core, Split, ValidIdentifiers;
    CoreAccepted(v);
    BaseParses(v);
    if v.build.Some? {
      var ids := Join(v.build.value, '.');
      IdentifiersJoin(v.build.value, false);
      SplitFirst(Base(v), '+', ids);
      SplitWhole(ids, '+');
      assert Written(v) == Base(v) + ['+'] + ids;
    } else {
      SplitWhole(Base(v), '+');
      assert Written(v) == Base(v);
    }
  }

  lemma CoreReads(core: string) returns (v: Version)
    requires CoreCompatible(core)
    ensures Acceptable(v) && Core(v) == core && v.preRelease.None? && v.build.None?
  {
    var c := Split(core, '.');
    JoinSplit(core, '.');
    assert c == [c[0], c[1], c[2]];
    v := Version(c[0], c[1], c[2], None, None);
  }

  lemma WithPreRelease(v: Version, ids: seq<string>)
    requires Acceptable(v) && Identifiers(ids, true)
    ensures var w := v.(preRelease := Some(ids)); Acceptable(w) && Core(w) == Core(v)
  {
  }

  lemma WithBuild(v: Version, ids: seq<string>)
    requires Acceptable(v) && Identifiers(ids, false)
    ensures var w := v.(build := Some(ids)); Acceptable(w) && Base(w) == Base(v)
  {
  }

  lemma NoParts(v: Version)
    requires v.preRelease.None?
    ensures Base(v) == Core(v)
  {
  }

  lemma BaseWithPreRelease(v: Version, base: string, d: nat)
    requires d < |base| && base[d] == '-' && Core(v) == base[..d] && v.preRelease.Some?
    requires Join(v.preRelease.value, '.') == base[d + 1..]
    ensures Base(v) == base
  {
    hide Core, Join;
    assert base == base[..d] + (['-'] + base[d + 1..]);
  }

  lemma BaseReads(base: string) returns (v: Version)
    requires CoreOf(base).Some? && CoreCompatible(CoreOf(base).value)
    ensures Acceptable(v) && Base(v) == base && v.build.None?
  {
    hide Acceptable, ValidIdentifiers, Identifiers, CoreCompatible, Split, Core, Base, Join;
    v := CoreReads(CoreOf(base).value);
    NoParts(v);
    var d := Position(base, '-');
    if d < |base| {
      SplitIdentifiers(base[d + 1..], true);
      WithPreRelease(v, Split(base[d + 1..], '.'));
      v := v.(preRelease := Some(Split(base[d + 1..], '.')));
      BaseWithPreRelease(v, base, d);
    }
  }

  lemma CompatibleReads(version: string) returns (v: Version)
    requires Compatible(version)
    ensures Acceptable(v) && Written(v) == version
  {
    var parts := Split(version, '+');
    hide Acceptable, ValidIdentifiers, Base, CoreOf, CoreCompatible;
    JoinSplit(version, '+');
    v := BaseReads(parts[0]);
    if |parts| == 2 {
      SplitIdentifiers(parts[1], false);
      WithBuild(v, Split(parts[1], '.'));
      v := v.(build := Some(Split(parts[1], '.')));
      assert parts == [parts[0], parts[1]] && parts[1..] == [parts[1]];
      assert version == parts[0] + ['+'] + parts[1];
      Regrouped(parts[0], ['+'], parts[1]);
    } else {
      assert parts == [parts[0]];
      assert version == parts[0] + [];
    }
  }

  lemma Regrouped(a: string, b: string, c: string)
    ensures a + b + c == a + (b + c)
  {
  }

  /**
    A client's version is accepted exactly when it is a semantic version with major number 3 whose
    other numbers fit 64 bits.
  */
  lemma CompatibleExactly(version: string)
    ensures Compatible(version) <==> exists v: Version :: Acceptable(v) && Written(v) == version
  {
    if Compatible(version) {
      var v := CompatibleReads(version);
    }
    if v: Version :| Acceptable(v) && Written(v) == version { WrittenCompatible(v); }
  }
}

/**
  Field names of the generated Rust types. The generator writes a property in snake case; serde's
  `rename_all = "camelCase"` turns the field back into the name that appears in JSON. Names are ASCII.
 */
module ProtocolCodegen {
  import opened Wrappers

  predicate IsUpper(c: char) { 'A' <= c <= 'Z' }

  predicate IsLower(c: char) { 'a' <= c <= 'z' }

  predicate IsLowerOrDigit(c: char) { IsLower(c) || '0' <= c <= '9' }

  function ToLower(c: char): char {
    if IsUpper(c) then 'a' + (c - 'A') else c
  }

  function ToUpper(c: char): char {
    if IsLower(c) then 'A' + (c - 'a') else c
  }

  // ---------------------------------------------------------------- the generator

  /** `replaceAll(/([a-z0-9])([A-Z])/g, '$1_$2')`: matches are taken from the left and do not overlap. */
  function Mark(s: string): string {
    if s == "" then ""
    else if |s| > 1 && IsLowerOrDigit(s[0]) && IsUpper(s[1]) then [s[0], '_', s[1]] + Mark(s[2..])
    else [s[0]] + Mark(s[1..])
  }

  function LowerCase(s: string): string {
    if s == "" then "" else [ToLower(s[0])] + LowerCase(s[1..])
  }

  /** `toSnakeCase`. */
  function SnakeCase(name: string): string {
    LowerCase(Mark(name))
  }

  /** The fields of a struct, in order: one for each property, and `extensions` if other properties are allowed. */
  function Fields(properties: seq<string>, additional: bool): seq<string> {
    if properties == [] then if additional then ["extensions"] else []
    else [SnakeCase(properties[0])] + Fields(properties[1..], additional)
  }

  // ---------------------------------------------------------------- serde

  /** Underscores disappear, and the letter after one is capitalised. */
  function Pascal(field: string, capitalize: bool): string {
    if field == "" then ""
    else if field[0] == '_' then Pascal(field[1..], true)
    else [if capitalize then ToUpper(field[0]) else field[0]] + Pascal(field[1..], false)
  }

  /** Pascal case with its first letter in lower case; a field without a letter to lower is rejected. */
  function CamelCase(field: string): Option<string> {
    var pascal := Pascal(field, true);
    if pascal == "" then None else Some([ToLower(pascal[0])] + pascal[1..])
  }

  // ---------------------------------------------------------------- the round trip

  /** Every capital directly follows a lower-case letter or a digit. */
  predicate CapitalsFollow(s: string) {
    forall i :: 0 <= i < |s| && IsUpper(s[i]) ==> i > 0 && IsLowerOrDigit(s[i - 1])
  }

  predicate IsCamel(name: string) {
    name != "" && '_' !in name && CapitalsFollow(name)
  }

  lemma LowerFirst(c: char, rest: string)
    ensures LowerCase([c] + rest) == [ToLower(c)] + LowerCase(rest)
  {
    assert ([c] + rest)[1..] == rest;
  }

  lemma PascalFirst(c: char, rest: string, capitalize: bool)
    ensures Pascal([c] + rest, capitalize)
         == if c == '_' then Pascal(rest, true) else [if capitalize then ToUpper(c) else c] + Pascal(rest, false)
  {
    assert ([c] + rest)[1..] == rest;
  }

  /** A match: the underscore is written, */
  lemma MatchIsWritten(s: string)
    requires |s| > 1 && IsLowerOrDigit(s[0]) && IsUpper(s[1])
    ensures SnakeCase(s) == [s[0]] + (['_'] + ([ToLower(s[1])] + SnakeCase(s[2..])))
  {
    var marked := Mark(s[2..]);
    assert Mark(s) == [s[0]] + (['_'] + ([s[1]] + marked));
    LowerFirst(s[1], marked);
    LowerFirst('_', [s[1]] + marked);
    LowerFirst(s[0], ['_'] + ([s[1]] + marked));
  }

  /** and read as the capital that it stands for. */
  lemma OneMatch(s: string)
    requires |s| > 1 && IsLowerOrDigit(s[0]) && IsUpper(s[1])
    ensures Pascal(SnakeCase(s), false) == [s[0]] + ([s[1]] + Pascal(SnakeCase(s[2..]), false))
  {
    var low, rest := ToLower(s[1]), SnakeCase(s[2..]);
    MatchIsWritten(s);
    PascalFirst(low, rest, true);
    PascalFirst('_', [low] + rest, false);
    PascalFirst(s[0], ['_'] + ([low] + rest), false);
  }

  /** A character outside a match: it is written in lower case. */
  lemma SnakeFirst(s: string)
    requires s != "" && !(|s| > 1 && IsLowerOrDigit(s[0]) && IsUpper(s[1]))
    ensures SnakeCase(s) == [ToLower(s[0])] + SnakeCase(s[1..])
  {
    LowerFirst(s[0], Mark(s[1..]));
  }

  lemma OneLetter(s: string)
    requires s != "" && s[0] != '_' && !(|s| > 1 && IsLowerOrDigit(s[0]) && IsUpper(s[1]))
    ensures Pascal(SnakeCase(s), false) == [ToLower(s[0])] + Pascal(SnakeCase(s[1..]), false)
  {
    SnakeFirst(s);
    PascalFirst(ToLower(s[0]), SnakeCase(s[1..]), false);
  }

  lemma CapitalsFollowLater(s: string, n: nat)
    requires CapitalsFollow(s) && n < |s| && !(n + 1 < |s| && IsUpper(s[n + 1]))
    ensures CapitalsFollow(s[n + 1..])
  {
    var rest := s[n + 1..];
    forall i | 0 <= i < |rest| && IsUpper(rest[i]) ensures i > 0 && IsLowerOrDigit(rest[i - 1]) {
      assert rest[i] == s[i + n + 1];
    }
  }

  lemma {:induction false} NamesComeBack(s: string)
    requires '_' !in s && CapitalsFollow(s)
    ensures Pascal(SnakeCase(s), false) == s
  {
    if s != "" {
      assert !IsUpper(s[0]) && s[0] in s;
      if |s| > 1 && IsLowerOrDigit(s[0]) && IsUpper(s[1]) {
        OneMatch(s);
        CapitalsFollowLater(s, 1);
        NamesComeBack(s[2..]);
        assert s == [s[0]] + ([s[1]] + s[2..]);
      } else {
        OneLetter(s);
        CapitalsFollowLater(s, 0);
        NamesComeBack(s[1..]);
        assert s == [s[0]] + s[1..];
      }
    }
  }

  lemma {:induction false} OnlyCamelComesOut(s: string)
    requires '_' !in s
    ensures CapitalsFollow(Pascal(SnakeCase(s), false))
  {
    if s != "" {
      assert s[0] in s;
      if |s| > 1 && IsLowerOrDigit(s[0]) && IsUpper(s[1]) {
        OneMatch(s);
        OnlyCamelComesOut(s[2..]);
      } else {
        OneLetter(s);
        OnlyCamelComesOut(s[1..]);
      }
    }
  }

  lemma {:induction false} NoUnderscoreComesOut(field: string, capitalize: bool)
    ensures '_' !in Pascal(field, capitalize)
  {
    if field != "" {
      NoUnderscoreComesOut(field[1..], true);
      NoUnderscoreComesOut(field[1..], false);
    }
  }

  lemma {:induction false} SnakeHasNoCapitals(s: string)
    ensures forall c :: c in LowerCase(s) ==> !IsUpper(c)
  {
    if s != "" {
      SnakeHasNoCapitals(s[1..]);
    }
  }

  /** Capitalising the first letter and lowering it again changes nothing in a field that starts with no underscore. */
  lemma CamelOfField(field: string)
    requires field != "" && field[0] != '_' && !IsUpper(field[0])
    ensures CamelCase(field) == Some(Pascal(field, false))
  {
  }

  /** A name survives the generator and serde exactly when it is in camel case already. */
  lemma NameReadsBack(name: string)
    ensures CamelCase(SnakeCase(name)) == Some(name) <==> IsCamel(name)
  {
    var field := SnakeCase(name);
    NoUnderscoreComesOut(field, true);
    if name != "" && '_' !in name {
      SnakeHasNoCapitals(Mark(name));
      assert name[0] in name && field[0] == ToLower(name[0]) && field[0] in field;
      CamelOfField(field);
      OnlyCamelComesOut(name);
      if CapitalsFollow(name) {
        NamesComeBack(name);
      }
    }
  }

  /** So two different names in camel case never share a field. */
  lemma SnakeCaseIsInjective(a: string, b: string)
    requires IsCamel(a) && IsCamel(b) && SnakeCase(a) == SnakeCase(b)
    ensures a == b
  {
    NameReadsBack(a);
    NameReadsBack(b);
  }

  // ---------------------------------------------------------------- names that collide

  lemma {:induction false} NothingToMark(s: string)
    requires forall c :: c in s ==> !IsUpper(c)
    ensures SnakeCase(s) == s
  {
    if s != "" {
      assert |s| > 1 ==> s[1] in s;
      NothingToMark(s[1..]);
      assert Mark(s)[1..] == Mark(s[1..]);
    }
  }

  /** The field of a name is its own field. */
  lemma CollidesWithItsField(name: string)
    ensures SnakeCase(SnakeCase(name)) == SnakeCase(name)
  {
    SnakeHasNoCapitals(Mark(name));
    NothingToMark(SnakeCase(name));
  }

  /** A lower-case letter that may as well be a capital: it directly follows no lower-case letter or digit. */
  predicate IsFree(s: string, i: nat) {
    i < |s| && IsLower(s[i]) && (i == 0 || !IsLowerOrDigit(s[i - 1]))
  }

  /** The names that share their field with another name. */
  predicate Shares(name: string) {
    || (exists i :: 0 <= i < |name| && IsUpper(name[i]))
    || (exists i :: 0 <= i < |name| && IsFree(name, i))
  }

  lemma FreeLater(c: char, field: string, j: nat)
    requires IsFree(field, j) && (j > 0 || !IsLowerOrDigit(c))
    ensures IsFree([c] + field, j + 1)
  {
  }

  lemma MatchIsFree(s: string)
    requires |s| > 1 && IsLowerOrDigit(s[0]) && IsUpper(s[1])
    ensures IsFree(SnakeCase(s), 2)
  {
    var shown := [ToLower(s[1])] + SnakeCase(s[2..]);
    MatchIsWritten(s);
    FreeLater('_', shown, 0);
    FreeLater(s[0], ['_'] + shown, 1);
  }

  /** A capital, the first in its name, shows in the field as a free letter. */
  lemma {:induction false} CapitalIsFree(s: string, k: nat) returns (j: nat)
    requires k < |s| && IsUpper(s[k]) && forall i :: 0 <= i < k ==> !IsUpper(s[i])
    ensures k <= j && IsFree(SnakeCase(s), j)
    decreases k
  {
    if |s| > 1 && IsLowerOrDigit(s[0]) && IsUpper(s[1]) {
      MatchIsFree(s);
      j := 2;
    } else {
      SnakeFirst(s);
      j := 0;
      if k > 0 {
        j := CapitalIsFree(s[1..], k - 1);
        FreeLater(ToLower(s[0]), SnakeCase(s[1..]), j);
        j := j + 1;
      }
    }
  }

  /** A free letter may be written as a capital. */
  lemma {:induction false} FreeMayBeCapital(s: string, i: nat)
    requires IsFree(s, i) && forall c :: c in s ==> !IsUpper(c)
    ensures SnakeCase(s[i := ToUpper(s[i])]) == s
    decreases i
  {
    var other := s[i := ToUpper(s[i])];
    assert s[0] in s && (|s| > 1 ==> s[1] in s);
    SnakeFirst(other);
    if i == 0 {
      NothingToMark(s[1..]);
      assert other[1..] == s[1..];
    } else {
      FreeMayBeCapital(s[1..], i - 1);
      assert other[1..] == s[1..][i - 1 := ToUpper(s[i])];
    }
  }

  lemma FirstCapital(s: string, i: nat) returns (k: nat)
    requires i < |s| && IsUpper(s[i])
    ensures k < |s| && IsUpper(s[k]) && forall j :: 0 <= j < k ==> !IsUpper(s[j])
  {
    k := 0;
    while !IsUpper(s[k])
      invariant k <= i && forall j :: 0 <= j < k ==> !IsUpper(s[j])
      decreases i - k
    {
      k := k + 1;
    }
  }

  /** Another name with the same field. */
  ghost predicate HasTwin(name: string) {
    exists other :: other != name && SnakeCase(other) == SnakeCase(name)
  }

  /** The twin of a name with a capital is its own field. */
  lemma CapitalHasTwin(name: string, i: nat)
    requires i < |name| && IsUpper(name[i])
    ensures HasTwin(name)
  {
    CollidesWithItsField(name);
    SnakeHasNoCapitals(Mark(name));
    assert name[i] in name && SnakeCase(name) != name;
  }

  /** The twin of a name without capitals has one in the free place. */
  lemma FreeHasTwin(name: string, i: nat)
    requires IsFree(name, i) && forall c :: c in name ==> !IsUpper(c)
    ensures HasTwin(name)
  {
    NothingToMark(name);
    FreeMayBeCapital(name, i);
    assert name[i := ToUpper(name[i])][i] != name[i];
  }

  lemma SharesWithATwin(name: string)
    requires Shares(name)
    ensures HasTwin(name)
  {
    if i: nat :| i < |name| && IsUpper(name[i]) {
      CapitalHasTwin(name, i);
    } else {
      var i: nat :| i < |name| && IsFree(name, i);
      FreeHasTwin(name, i);
    }
  }

  lemma TwinsShare(name: string, other: string)
    requires other != name && SnakeCase(other) == SnakeCase(name)
    ensures Shares(name)
  {
    if forall i :: 0 <= i < |name| ==> !IsUpper(name[i]) {
      NothingToMark(name);
      if i: nat :| i < |other| && IsUpper(other[i]) {
        var k := FirstCapital(other, i);
        var j := CapitalIsFree(other, k);
      } else {
        NothingToMark(other);
      }
    }
  }

  /** A name shares its field with another name exactly when one of its letters is a capital or free. */
  lemma CollidesExactlyWhen(name: string)
    ensures HasTwin(name) <==> Shares(name)
  {
    if Shares(name) {
      SharesWithATwin(name);
    }
    if other :| other != name && SnakeCase(other) == SnakeCase(name) {
      TwinsShare(name, other);
    }
  }

  predicate Distinct(names: seq<string>) {
    forall i, j :: 0 <= i < j < |names| ==> names[i] != names[j]
  }

  lemma {:induction false} FieldAt(properties: seq<string>, additional: bool)
    ensures |Fields(properties, additional)| == |properties| + if additional then 1 else 0
    ensures forall i :: 0 <= i < |properties| ==> Fields(properties, additional)[i] == SnakeCase(properties[i])
    ensures additional ==> Fields(properties, additional)[|properties|] == "extensions"
  {
    if properties != [] {
      FieldAt(properties[1..], additional);
    }
  }

  lemma LowerCaseIsCamel(s: string)
    requires s != "" && forall i :: 0 <= i < |s| ==> IsLower(s[i])
    ensures IsCamel(s) && SnakeCase(s) == s
  {
    NothingToMark(s);
  }

  lemma ExtensionsIsCamel()
    ensures IsCamel("extensions") && SnakeCase("extensions") == "extensions"
  {
    var s := "extensions";
    assert s[0] == 'e' && s[1] == 'x' && s[2] == 't' && s[3] == 'e' && s[4] == 'n'
           && s[5] == 's' && s[6] == 'i' && s[7] == 'o' && s[8] == 'n' && s[9] == 's';
    LowerCaseIsCamel(s);
  }

  lemma NamedFieldsAreDistinct(properties: seq<string>, fields: seq<string>)
    requires Distinct(properties) && (forall p :: p in properties ==> IsCamel(p)) && |properties| <= |fields|
    requires forall i :: 0 <= i < |properties| ==> fields[i] == SnakeCase(properties[i])
    ensures forall i, j :: 0 <= i < j < |properties| ==> fields[i] != fields[j]
  {
    forall i, j | 0 <= i < j < |properties| ensures fields[i] != fields[j] {
      if fields[i] == fields[j] {
        SnakeCaseIsInjective(properties[i], properties[j]);
      }
    }
  }

  lemma OneMoreField(properties: seq<string>, fields: seq<string>, last: string)
    requires Distinct(properties) && (forall p :: p in properties ==> IsCamel(p)) && |fields| == |properties| + 1
    requires forall i :: 0 <= i < |properties| ==> fields[i] == SnakeCase(properties[i])
    requires fields[|properties|] == last == SnakeCase(last) && IsCamel(last)
    ensures Distinct(fields) <==> last !in properties
  {
    NamedFieldsAreDistinct(properties, fields);
    forall i | 0 <= i < |properties| ensures fields[i] == last <==> properties[i] == last {
      if fields[i] == last {
        SnakeCaseIsInjective(properties[i], last);
      }
    }
    if last in properties {
      var i :| 0 <= i < |properties| && properties[i] == last;
      assert fields[i] == fields[|properties|];
    }
  }

  /**
    A struct for distinct properties in camel case has distinct fields, unless other properties are allowed
    and one of the properties is itself called `extensions`.
   */
  lemma FieldsAreDistinct(properties: seq<string>, additional: bool)
    requires Distinct(properties) && forall p :: p in properties ==> IsCamel(p)
    ensures Distinct(Fields(properties, additional)) <==> !(additional && "extensions" in properties)
  {
    FieldAt(properties, additional);
    if additional {
      ExtensionsIsCamel();
      OneMoreField(properties, Fields(properties, true), "extensions");
    } else {
      NamedFieldsAreDistinct(properties, Fields(properties, false));
    }
  }
}

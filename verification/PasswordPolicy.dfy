/**
  The password policy of the realm: a list of terms joined by " and ". The reconciler keeps the
  operator's terms and raises the length term to the minimum.
 */
module PasswordPolicy {
  import opened Text
  import opened Wrappers

  const MINIMUM_PASSWORD_LENGTH: nat := 8
  const SEPARATOR := " and "

  // ---------------------------------------------------------------- split and join

  /** `str.split`. */
  function Split(s: string): (parts: seq<string>)
    ensures |parts| > 0
    decreases |s|
  {
    match Find(s, SEPARATOR)
    case None => [s]
    case Some(i) => [s[..i]] + Split(s[i + |SEPARATOR|..])
  }

  /** `str.join`. */
  function Join(parts: seq<string>): string {
    if parts == [] then ""
    else if |parts| == 1 then parts[0]
    else parts[0] + SEPARATOR + Join(parts[1..])
  }

  lemma {:induction false} PartsHoldNoSeparator(s: string)
    ensures forall p :: p in Split(s) ==> !Contains(p, SEPARATOR)
    decreases |s|
  {
    match Find(s, SEPARATOR)
    case None =>
    case Some(i) =>
      PartsHoldNoSeparator(s[i + |SEPARATOR|..]);
      forall j | 0 <= j <= i - |SEPARATOR| ensures !OccursAt(s[..i], SEPARATOR, j) {
        OccursInPart(s, SEPARATOR, 0, i, j);
      }
  }

  lemma JoinNext(first: string, rest: seq<string>)
    requires rest != []
    ensures Join([first] + rest) == first + SEPARATOR + Join(rest)
  {
    assert ([first] + rest)[1..] == rest;
  }

  lemma {:induction false} JoinUndoesSplit(s: string)
    ensures Join(Split(s)) == s
    decreases |s|
  {
    match Find(s, SEPARATOR)
    case None =>
    case Some(i) =>
      var rest := s[i + |SEPARATOR|..];
      JoinUndoesSplit(rest);
      JoinNext(s[..i], Split(rest));
      assert s == s[..i] + SEPARATOR + rest by {
        assert s[i..i + |SEPARATOR|] == SEPARATOR;
      }
  }

  /** The only way in which a term can swallow the separator that follows it. */
  predicate EndsInAnd(term: string) {
    |term| >= 4 && term[|term| - 4..] == " and"
  }

  /** No term but the last ends in " and". */
  predicate Separable(terms: seq<string>) {
    forall k :: 0 <= k < |terms| - 1 ==> !EndsInAnd(terms[k])
  }

  /** Where the first separator of a joined text lies. */
  lemma FirstSeparator(term: string, rest: string)
    requires !Contains(term, SEPARATOR)
    ensures var at := Find(term + SEPARATOR + rest, SEPARATOR);
            at.Some? && (at.value == |term| <==> !EndsInAnd(term)) && at.value <= |term|
  {
    var s, n := term + SEPARATOR + rest, |term|;
    OccursByLetters(s, SEPARATOR, n);
    assert OccursAt(s, SEPARATOR, n);
    if EndsInAnd(term) {
      assert forall k :: 0 <= k < 4 ==> s[n - 4 + k] == term[n - 4..][k] == " and"[k];
      assert s[n] == ' ';
      OccursByLetters(s, SEPARATOR, n - 4);
    } else {
      forall i | 0 <= i < n ensures !OccursAt(s, SEPARATOR, i) {
        NoEarlierSeparator(term, rest, i);
      }
    }
  }

  lemma NoEarlierSeparator(term: string, rest: string, i: nat)
    requires !Contains(term, SEPARATOR) && !EndsInAnd(term) && i < |term|
    ensures !OccursAt(term + SEPARATOR + rest, SEPARATOR, i)
  {
    var s, n := term + SEPARATOR + rest, |term|;
    OccursByLetters(s, SEPARATOR, i);
    if i + 5 <= n {
      assert s[0..n] == term;
      OccursInPart(s, SEPARATOR, 0, n, i);
    } else if i == n - 4 {
      assert term[i..] == [s[i + 0], s[i + 1], s[i + 2], s[i + 3]];
      assert [SEPARATOR[0], SEPARATOR[1], SEPARATOR[2], SEPARATOR[3]] == " and";
    } else {
      assert s[i + (n - i)] == s[n] == ' ';
      assert SEPARATOR[1] != ' ' && SEPARATOR[2] != ' ' && SEPARATOR[3] != ' ';
      assert n - i in {1, 2, 3} && SEPARATOR[n - i] != ' ';
    }
  }

  /** The first part of a joined text. */
  lemma SplitFirst(term: string, rest: string)
    requires !Contains(term, SEPARATOR)
    ensures var parts := Split(term + SEPARATOR + rest);
            if EndsInAnd(term) then parts[0] != term else parts == [term] + Split(rest)
  {
    var s := term + SEPARATOR + rest;
    FirstSeparator(term, rest);
    var i := Find(s, SEPARATOR).value;
    assert Split(s)[0] == s[..i];
    if i == |term| {
      assert s[..i] == term && s[i + |SEPARATOR|..] == rest;
    }
  }

  lemma SeparableFrom(first: string, rest: seq<string>)
    requires rest != []
    ensures Separable([first] + rest) <==> !EndsInAnd(first) && Separable(rest)
  {
    var terms := [first] + rest;
    assert terms[0] == first;
    assert forall k :: 0 < k < |terms| ==> terms[k] == rest[k - 1];
    assert forall k :: 0 <= k < |rest| ==> rest[k] == terms[k + 1];
  }

  /** Split undoes join exactly when no term but the last ends in " and". */
  lemma {:induction false} SplitUndoesJoin(terms: seq<string>)
    requires terms != [] && forall t :: t in terms ==> !Contains(t, SEPARATOR)
    ensures Split(Join(terms)) == terms <==> Separable(terms)
    decreases |terms|
  {
    if |terms| > 1 {
      var first, rest := terms[0], terms[1..];
      assert terms == [first] + rest;
      SplitFirst(first, Join(rest));
      SplitUndoesJoin(rest);
      SeparableFrom(first, rest);
      var parts := Split(Join(terms));
      assert parts == [first] + Split(Join(rest)) ==> parts[1..] == Split(Join(rest));
    }
  }

  // ---------------------------------------------------------------- strip

  /** `str.isspace` of one character. */
  predicate IsSpace(c: char) {
    || '\t' <= c <= '\r' || '\U{1C}' <= c <= ' ' || c == '\U{85}' || c == '\U{A0}' || c == '\U{1680}'
    || '\U{2000}' <= c <= '\U{200A}' || c == '\U{2028}' || c == '\U{2029}' || c == '\U{202F}' || c == '\U{205F}'
    || c == '\U{3000}'
  }

  /** `str.strip`. */
  function Strip(s: string): (t: string)
    ensures t != "" ==> !IsSpace(t[0]) && !IsSpace(t[|t| - 1])
  {
    if s != "" && IsSpace(s[0]) then Strip(s[1..])
    else if s != "" && IsSpace(s[|s| - 1]) then Strip(s[..|s| - 1])
    else s
  }

  /** What stays is a part of the text, and all around it is white space. */
  lemma {:induction false} StripKeepsThePart(s: string) returns (lo: nat, hi: nat)
    ensures lo <= hi <= |s| && Strip(s) == s[lo..hi]
    ensures forall k :: 0 <= k < lo || hi <= k < |s| ==> IsSpace(s[k])
  {
    lo, hi := 0, |s|;
    if s != "" && IsSpace(s[0]) {
      lo, hi := StripKeepsThePart(s[1..]);
      assert s[1..][lo..hi] == s[lo + 1..hi + 1] && forall k :: 1 <= k < |s| ==> s[k] == s[1..][k - 1];
      lo, hi := lo + 1, hi + 1;
    } else if s != "" && IsSpace(s[|s| - 1]) {
      lo, hi := StripKeepsThePart(s[..|s| - 1]);
      assert s[..|s| - 1][lo..hi] == s[lo..hi] && forall k :: 0 <= k < |s| - 1 ==> s[k] == s[..|s| - 1][k];
    }
  }

  lemma StrippedStays(s: string)
    requires s != "" ==> !IsSpace(s[0]) && !IsSpace(s[|s| - 1])
    ensures Strip(s) == s
  {
  }

  lemma {:induction false} StripAddsNoSeparator(s: string)
    requires !Contains(s, SEPARATOR)
    ensures !Contains(Strip(s), SEPARATOR)
  {
    if s != "" {
      PartHoldsNoSeparator(s, 1, |s|);
      PartHoldsNoSeparator(s, 0, |s| - 1);
      assert s[1..|s|] == s[1..] && s[0..|s| - 1] == s[..|s| - 1];
      if IsSpace(s[0]) {
        StripAddsNoSeparator(s[1..]);
      } else if IsSpace(s[|s| - 1]) {
        StripAddsNoSeparator(s[..|s| - 1]);
      }
    }
  }

  lemma PartHoldsNoSeparator(s: string, lo: nat, hi: nat)
    requires !Contains(s, SEPARATOR) && lo <= hi <= |s|
    ensures !Contains(s[lo..hi], SEPARATOR)
  {
    forall i | 0 <= i <= hi - lo - |SEPARATOR| ensures !OccursAt(s[lo..hi], SEPARATOR, i) {
      OccursInPart(s, SEPARATOR, lo, hi, lo + i);
    }
  }

  // ---------------------------------------------------------------- decimal numbers

  /** The zeros of the other decimal digits (general category Nd of Unicode 14.0); the digits follow their zero. */
  const OTHER_ZEROS: seq<char> := [
    '\U{660}', '\U{6F0}', '\U{7C0}', '\U{966}', '\U{9E6}', '\U{A66}', '\U{AE6}', '\U{B66}', '\U{BE6}',
    '\U{C66}', '\U{CE6}', '\U{D66}', '\U{DE6}', '\U{E50}', '\U{ED0}', '\U{F20}', '\U{1040}', '\U{1090}',
    '\U{17E0}', '\U{1810}', '\U{1946}', '\U{19D0}', '\U{1A80}', '\U{1A90}', '\U{1B50}', '\U{1BB0}',
    '\U{1C40}', '\U{1C50}', '\U{A620}', '\U{A8D0}', '\U{A900}', '\U{A9D0}', '\U{A9F0}', '\U{AA50}',
    '\U{ABF0}', '\U{FF10}', '\U{104A0}', '\U{10D30}', '\U{11066}', '\U{110F0}', '\U{11136}', '\U{111D0}',
    '\U{112F0}', '\U{11450}', '\U{114D0}', '\U{11650}', '\U{116C0}', '\U{11730}', '\U{118E0}', '\U{11950}',
    '\U{11C50}', '\U{11D50}', '\U{11DA0}', '\U{16A60}', '\U{16AC0}', '\U{16B50}', '\U{1D7CE}', '\U{1D7D8}',
    '\U{1D7E2}', '\U{1D7EC}', '\U{1D7F6}', '\U{1E140}', '\U{1E2F0}', '\U{1E950}', '\U{1FBF0}']

  /** The digit that a character is after one of the zeros. */
  function DigitAfter(c: char, zeros: seq<char>): (d: Option<nat>)
    ensures d.Some? ==> d.value < 10
  {
    if zeros == [] then None
    else if zeros[0] <= c && c as int - zeros[0] as int < 10 then Some(c as int - zeros[0] as int)
    else DigitAfter(c, zeros[1..])
  }

  predicate IsAsciiDigit(c: char) {
    '0' <= c <= '9'
  }

  /** What `\d` matches, and the value that `int` gives it. */
  function DigitOf(c: char): (d: Option<nat>)
    ensures d.Some? ==> d.value < 10
  {
    if IsAsciiDigit(c) then Some(c as int - '0' as int) else DigitAfter(c, OTHER_ZEROS)
  }

  predicate IsNumber(s: string) {
    s != "" && forall k :: 0 <= k < |s| ==> DigitOf(s[k]).Some?
  }

  function Digits(n: nat): (s: string)
    ensures s != "" && forall k :: 0 <= k < |s| ==> IsAsciiDigit(s[k])
  {
    (if n < 10 then "" else Digits(n / 10)) + [(('0' as int) + n % 10) as char]
  }

  function Value(s: string): nat
    requires forall k :: 0 <= k < |s| ==> DigitOf(s[k]).Some?
  {
    if s == "" then 0 else Value(s[..|s| - 1]) * 10 + DigitOf(s[|s| - 1]).value
  }

  lemma {:induction false} ReadsBack(n: nat)
    ensures Value(Digits(n)) == n
  {
    var s := Digits(n);
    if n < 10 {
      assert s[..|s| - 1] == "";
    } else {
      ReadsBack(n / 10);
      assert s[..|s| - 1] == Digits(n / 10);
    }
  }

  // ---------------------------------------------------------------- terms

  const LENGTH_OPEN := "length("

  predicate IsLengthLike(term: string) {
    LENGTH_OPEN <= term
  }

  function LengthTerm(n: nat): string {
    LENGTH_OPEN + Digits(n) + ")"
  }

  /** The number of a well-formed length term. */
  function LengthOf(term: string): Option<nat> {
    var n := |LENGTH_OPEN|;
    if IsLengthLike(term) && |term| > n + 1 && term[|term| - 1] == ')' && IsNumber(term[n..|term| - 1]) then
      Some(Value(term[n..|term| - 1]))
    else None
  }

  lemma LengthTermReadsBack(n: nat)
    ensures LengthOf(LengthTerm(n)) == Some(n) && IsLengthLike(LengthTerm(n))
  {
    var t := LengthTerm(n);
    ReadsBack(n);
    assert t[|LENGTH_OPEN|..|t| - 1] == Digits(n);
    assert t[..|LENGTH_OPEN|] == LENGTH_OPEN;
  }

  /** A term counts exactly if it is the word, a number in any decimal digits, and the closing bracket. */
  lemma LengthOfMeans(term: string, digits: string)
    ensures IsNumber(digits) ==> LengthOf("length(" + digits + ")") == Some(Value(digits))
    ensures LengthOf(term).Some? ==>
              |term| > 8 && IsNumber(term[7..|term| - 1]) && term == "length(" + term[7..|term| - 1] + ")"
  {
    var t := LENGTH_OPEN + digits + ")";
    assert t[|LENGTH_OPEN|..|t| - 1] == digits && t[..|LENGTH_OPEN|] == LENGTH_OPEN;
    if LengthOf(term).Some? {
      assert term == term[..7] + term[7..|term| - 1] + [term[|term| - 1]];
    }
  }

  function Terms(current: Option<string>): seq<string> {
    match current
    case None => []
    case Some(s) => StripAll(Split(s))
  }

  function StripAll(parts: seq<string>): (terms: seq<string>)
    ensures |terms| == |parts| && forall k :: 0 <= k < |parts| ==> terms[k] == Strip(parts[k])
  {
    if parts == [] then [] else [Strip(parts[0])] + StripAll(parts[1..])
  }

  predicate IsKept(term: string) {
    term != "" && !IsLengthLike(term)
  }

  /** The terms of the operator that stay, in their order. */
  function Kept(terms: seq<string>): (kept: seq<string>)
    ensures forall t :: t in kept <==> t in terms && IsKept(t)
  {
    if terms == [] then [] else (if IsKept(terms[0]) then [terms[0]] else []) + Kept(terms[1..])
  }

  /** The new length: the largest well-formed old one, and the minimum. */
  function MinimumLength(terms: seq<string>): (n: nat)
    ensures n >= MINIMUM_PASSWORD_LENGTH
    ensures forall t :: t in terms && LengthOf(t).Some? ==> n >= LengthOf(t).value
    ensures n == MINIMUM_PASSWORD_LENGTH || exists t :: t in terms && LengthOf(t) == Some(n)
  {
    if terms == [] then MINIMUM_PASSWORD_LENGTH
    else
      var n := MinimumLength(terms[1..]);
      match LengthOf(terms[0])
      case Some(m) => if m > n then m else n
      case None => n
  }

  /** `password_policy`. */
  function PasswordPolicy(current: Option<string>): string {
    Join([LengthTerm(MinimumLength(Terms(current)))] + Kept(Terms(current)))
  }

  /** A realm without a policy gets the minimum length and nothing else. */
  lemma WithoutAPolicy()
    ensures PasswordPolicy(None) == "length(8)"
  {
    assert Digits(8) == "8";
    assert Join([LengthTerm(8)] + []) == LengthTerm(8);
  }

  /** Terms stay in their order, each as often as it stood there. */
  lemma {:induction false} KeptOfBoth(a: seq<string>, b: seq<string>)
    ensures Kept(a + b) == Kept(a) + Kept(b)
  {
    if a == [] {
      assert a + b == b && Kept(a) + Kept(b) == Kept(b);
    } else {
      var first := if IsKept(a[0]) then [a[0]] else [];
      KeptOfBoth(a[1..], b);
      assert (a + b)[1..] == a[1..] + b;
      Regroup(first, Kept(a[1..]), Kept(b));
    }
  }

  lemma Regroup(a: seq<string>, b: seq<string>, c: seq<string>)
    ensures a + b + c == a + (b + c)
  {
  }

  lemma KeptTermsAreClean(current: Option<string>)
    ensures forall t :: t in Terms(current) ==> !Contains(t, SEPARATOR) && Strip(t) == t
  {
    if current.Some? {
      var parts := Split(current.value);
      PartsHoldNoSeparator(current.value);
      forall k | 0 <= k < |parts|
        ensures !Contains(Strip(parts[k]), SEPARATOR) && Strip(Strip(parts[k])) == Strip(parts[k])
      {
        StripAddsNoSeparator(parts[k]);
        StrippedStays(Strip(parts[k]));
      }
    }
  }

  lemma LengthTermIsClean(n: nat)
    ensures var t := LengthTerm(n); !Contains(t, SEPARATOR) && !EndsInAnd(t) && Strip(t) == t
  {
    var t := LengthTerm(n);
    assert t[|t| - 4..][3] == ')';
    forall k | 0 <= k < |t| ensures t[k] != ' ' {
      assert k < 7 ==> t[k] == LENGTH_OPEN[k];
      assert 7 <= k < |t| - 1 ==> t[k] == Digits(n)[k - 7];
    }
    forall i | 0 <= i <= |t| - |SEPARATOR| ensures !OccursAt(t, SEPARATOR, i) {
      OccursByLetters(t, SEPARATOR, i);
      assert t[i + 0] != SEPARATOR[0];
    }
    StrippedStays(t);
  }

  /**
    Reading the new policy back gives one length term followed by the kept terms in their order,
    exactly when no kept term but the last ends in " and".
   */
  lemma PolicyReadsBack(current: Option<string>)
    ensures var kept := Kept(Terms(current));
            Split(PasswordPolicy(current)) == [LengthTerm(MinimumLength(Terms(current)))] + kept <==> Separable(kept)
  {
    var n, kept := MinimumLength(Terms(current)), Kept(Terms(current));
    var terms := [LengthTerm(n)] + kept;
    KeptTermsAreClean(current);
    LengthTermIsClean(n);
    SplitUndoesJoin(terms);
    if kept != [] {
      SeparableFrom(LengthTerm(n), kept);
    }
  }

  lemma {:induction false} KeptOfKept(terms: seq<string>)
    requires forall t :: t in terms ==> IsKept(t)
    ensures Kept(terms) == terms
  {
    if terms != [] {
      KeptOfKept(terms[1..]);
    }
  }

  lemma {:induction false} StripAllOfStripped(terms: seq<string>)
    requires forall t :: t in terms ==> Strip(t) == t
    ensures StripAll(terms) == terms
  {
  }

  // ---------------------------------------------------------------- applying it twice

  predicate IsSettled(part: string) {
    IsKept(part) && Strip(part) == part
  }

  /** Joined and split again, the kept terms give parts without outer white space, none empty and none a length term. */
  predicate Settles(kept: seq<string>) {
    kept == [] || forall p :: p in Split(Join(kept)) ==> IsSettled(p)
  }

  /** Terms that read back settle. */
  lemma SeparableSettles(current: Option<string>)
    ensures Separable(Kept(Terms(current))) ==> Settles(Kept(Terms(current)))
  {
    var kept := Kept(Terms(current));
    KeptTermsAreClean(current);
    if kept != [] {
      SplitUndoesJoin(kept);
    }
  }

  lemma {:induction false} StripShortens(s: string)
    ensures |Strip(s)| <= |s| && (|Strip(s)| == |s| ==> Strip(s) == s)
  {
    if s != "" && IsSpace(s[0]) {
      StripShortens(s[1..]);
    } else if s != "" && IsSpace(s[|s| - 1]) {
      StripShortens(s[..|s| - 1]);
    }
  }

  /** The length of the parts with a separator after each. */
  function Weight(parts: seq<string>): nat {
    if parts == [] then 0 else |parts[0]| + |SEPARATOR| + Weight(parts[1..])
  }

  lemma {:induction false} JoinedLength(parts: seq<string>)
    requires parts != []
    ensures |Join(parts)| + |SEPARATOR| == Weight(parts)
  {
    if |parts| > 1 {
      JoinedLength(parts[1..]);
    } else {
      assert parts[1..] == [];
    }
  }

  /** Stripping and dropping parts makes them shorter, unless they are settled already. */
  lemma {:induction false} KeepingShortens(parts: seq<string>)
    ensures Weight(Kept(StripAll(parts))) <= Weight(parts)
    ensures Weight(Kept(StripAll(parts))) == Weight(parts) ==> forall p :: p in parts ==> IsSettled(p)
  {
    if parts != [] {
      KeepingShortens(parts[1..]);
      StripShortens(parts[0]);
      var rest := Kept(StripAll(parts[1..]));
      var first := Strip(parts[0]);
      assert StripAll(parts)[0] == first && StripAll(parts)[1..] == StripAll(parts[1..]);
      if IsKept(first) {
        assert ([first] + rest)[1..] == rest;
      } else {
        assert [] + rest == rest;
      }
    }
  }

  /** What the second application sees. */
  lemma ReadAgain(current: Option<string>)
    requires Kept(Terms(current)) != []
    ensures var n, kept := MinimumLength(Terms(current)), Kept(Terms(current));
            Terms(Some(PasswordPolicy(current))) == [LengthTerm(n)] + StripAll(Split(Join(kept)))
  {
    var n, kept := MinimumLength(Terms(current)), Kept(Terms(current));
    var parts := Split(Join(kept));
    LengthTermIsClean(n);
    JoinNext(LengthTerm(n), kept);
    SplitFirst(LengthTerm(n), Join(kept));
    assert ([LengthTerm(n)] + parts)[1..] == parts;
  }

  /** The kept terms of the second application are those of the parts; the length does not shrink. */
  lemma SecondApplication(n: nat, parts: seq<string>)
    requires n >= MINIMUM_PASSWORD_LENGTH
    ensures var terms := [LengthTerm(n)] + StripAll(parts);
            && Kept(terms) == Kept(StripAll(parts)) && MinimumLength(terms) >= n
            && ((forall p :: p in parts ==> IsSettled(p)) ==> Kept(terms) == parts && MinimumLength(terms) == n)
  {
    var terms := [LengthTerm(n)] + StripAll(parts);
    LengthTermReadsBack(n);
    assert LengthTerm(n) in terms;
    assert terms[1..] == StripAll(parts) && [] + Kept(StripAll(parts)) == Kept(StripAll(parts));
    if forall p :: p in parts ==> IsSettled(p) {
      StripAllOfStripped(parts);
      KeptOfKept(parts);
      TermsOfPrinted(n, parts);
    }
  }

  /** Applying the policy twice is applying it once exactly when the kept terms settle. */
  lemma PolicyIsIdempotent(current: Option<string>)
    ensures PasswordPolicy(Some(PasswordPolicy(current))) == PasswordPolicy(current) <==> Settles(Kept(Terms(current)))
  {
    var n, kept := MinimumLength(Terms(current)), Kept(Terms(current));
    if kept == [] {
      LengthTermAlone(n);
      TermsOfPrinted(n, []);
    } else {
      var parts := Split(Join(kept));
      ReadAgain(current);
      SecondApplication(n, parts);
      JoinUndoesSplit(Join(kept));
      JoinNext(LengthTerm(n), kept);
      if Settles(kept) {
        JoinNext(LengthTerm(n), parts);
      } else {
        var again := Kept(StripAll(parts));
        var m := MinimumLength([LengthTerm(n)] + StripAll(parts));
        OnlySettledComesBack(n, m, kept, parts, again);
      }
    }
  }

  lemma LengthTermAlone(n: nat)
    ensures Terms(Some(LengthTerm(n))) == [LengthTerm(n)] + []
  {
    LengthTermIsClean(n);
    assert Split(LengthTerm(n)) == [LengthTerm(n)];
  }

  /** If parts were lost or shortened, the second text differs from the first. */
  lemma OnlySettledComesBack(n: nat, m: nat, kept: seq<string>, parts: seq<string>, again: seq<string>)
    requires kept != [] && parts != [] && Join(parts) == Join(kept) && again == Kept(StripAll(parts))
    requires exists p :: p in parts && !IsSettled(p)
    ensures Join([LengthTerm(m)] + again) != Join([LengthTerm(n)] + kept)
  {
    KeepingShortens(parts);
    StartsWithLength(n, kept);
    LengthTermIsClean(m);
    if again != [] {
      StartsWithLength(m, again);
      JoinNext(LengthTerm(m), again);
      JoinNext(LengthTerm(n), kept);
      JoinedLength(again);
      JoinedLength(parts);
    }
  }

  lemma TermsOfPrinted(n: nat, kept: seq<string>)
    requires n >= MINIMUM_PASSWORD_LENGTH && forall t :: t in kept ==> IsKept(t)
    ensures var terms := [LengthTerm(n)] + kept; Kept(terms) == kept && MinimumLength(terms) == n
  {
    var terms := [LengthTerm(n)] + kept;
    LengthTermReadsBack(n);
    KeptOfKept(kept);
    assert terms[1..] == kept && forall t :: t in kept ==> LengthOf(t).None?;
  }

  /** Terms without inner white space always read back. */
  lemma WithoutWhiteSpaceItReadsBack(current: Option<string>)
    requires forall t, c :: t in Terms(current) && c in t ==> !IsSpace(c)
    ensures Separable(Kept(Terms(current)))
  {
    var kept := Kept(Terms(current));
    forall k | 0 <= k < |kept| - 1 ensures !EndsInAnd(kept[k]) {
      var t := kept[k];
      assert |t| >= 4 ==> t[|t| - 4..][0] == t[|t| - 4] && t[|t| - 4] in t;
    }
  }

  // ---------------------------------------------------------------- policies that do not read back

  /** A rule of one word. */
  predicate IsWord(a: string) {
    IsKept(a) && forall c :: c in a ==> !IsSpace(c)
  }

  /** `<a> and<tab> and and length(<m>)`: the tab keeps the first split from seeing the word `and`. */
  function Unsettled(a: string, m: nat): string {
    a + " and\t" + SEPARATOR + ("and " + LengthTerm(m))
  }

  lemma WordFacts(a: string)
    requires IsWord(a)
    ensures var t := a + " and"; Strip(t + "\t") == t && Strip(t) == t && IsKept(t)
    ensures !Contains(a + " and\t", SEPARATOR) && !Contains(a, SEPARATOR)
  {
    var t := a + " and";
    assert (t + "\t")[..|t|] == t;
    StrippedStays(t);
    if |a| >= |LENGTH_OPEN| {
      assert t[..|LENGTH_OPEN|] == a[..|LENGTH_OPEN|];
    } else {
      assert t[|a|] == ' ' != LENGTH_OPEN[|a|];
    }
    forall k | 0 <= k < |a| ensures a[k] != ' ' {
      assert a[k] in a;
    }
    NoSeparatorIn(a + " and\t");
    NoSeparatorIn(a);
  }

  lemma AndLengthFacts(m: nat)
    ensures var t := "and " + LengthTerm(m); !Contains(t, SEPARATOR) && Strip(t) == t && IsKept(t) && LengthOf(t).None?
  {
    var e := LengthTerm(m);
    var t := "and " + e;
    assert e[..|LENGTH_OPEN|] == LENGTH_OPEN && t[0] == 'a';
    forall k | 0 <= k < |e| ensures e[k] != ' ' {
      assert k < |LENGTH_OPEN| ==> e[k] == LENGTH_OPEN[k];
      assert |LENGTH_OPEN| <= k < |e| - 1 ==> e[k] == Digits(m)[k - |LENGTH_OPEN|];
    }
    NoSeparatorIn(t);
    StrippedStays(t);
  }

  lemma FirstReading(a: string, m: nat)
    requires IsWord(a)
    ensures Terms(Some(Unsettled(a, m))) == [a + " and", "and " + LengthTerm(m)]
  {
    var t, u := a + " and", "and " + LengthTerm(m);
    var parts := [t + "\t", u];
    WordFacts(a);
    AndLengthFacts(m);
    assert t + "\t" == a + " and\t" && parts[1..] == [u];
    assert Join(parts) == Unsettled(a, m);
    assert !EndsInAnd(t + "\t") by {
      assert (t + "\t")[|t| - 3..][3] == '\t';
    }
    SplitUndoesJoin(parts);
    assert StripAll(parts) == [t, u];
  }

  /** The same text, cut in another way. */
  lemma SameText(a: string, e: string)
    ensures Join([a + " and", "and " + e]) == Join([a, "and", e])
  {
    var m := " and and and ";
    assert m == " and" + SEPARATOR + "and " == SEPARATOR + "and" + SEPARATOR;
    JoinNext(a + " and", ["and " + e]);
    JoinNext("and", [e]);
    JoinNext(a, ["and", e]);
    assert [a + " and"] + ["and " + e] == [a + " and", "and " + e];
    assert ["and"] + [e] == ["and", e] && [a] + ["and", e] == [a, "and", e];
    assert (a + " and") + SEPARATOR + ("and " + e) == a + m + e;
    assert a + SEPARATOR + ("and" + SEPARATOR + e) == a + m + e;
  }

  /** A term that a joined text gives back as it is. */
  predicate IsPlain(t: string) {
    !Contains(t, SEPARATOR) && !EndsInAnd(t)
  }

  lemma WordIsPlain(a: string)
    requires IsWord(a)
    ensures IsPlain(a)
  {
    WordFacts(a);
    assert |a| >= 4 ==> a[|a| - 4..][0] == a[|a| - 4] && a[|a| - 4] in a;
  }

  lemma PlainTermsReadBack(terms: seq<string>)
    requires terms != [] && forall k :: 0 <= k < |terms| ==> IsPlain(terms[k])
    ensures Split(Join(terms)) == terms
  {
    forall t | t in terms ensures !Contains(t, SEPARATOR) {
      var k :| 0 <= k < |terms| && terms[k] == t;
      assert IsPlain(terms[k]);
    }
    assert Separable(terms) by {
      assert forall k :: 0 <= k < |terms| ==> IsPlain(terms[k]);
    }
    SplitUndoesJoin(terms);
  }

  /**
    A family that does not settle: every such policy hides a length term that only the second application sees.
   */
  lemma TwiceMayDifferFromOnce(a: string, m: nat)
    requires IsWord(a)
    ensures var s := Some(Unsettled(a, m)); PasswordPolicy(Some(PasswordPolicy(s))) != PasswordPolicy(s)
  {
    var e := LengthTerm(m);
    var kept, parts := [a + " and", "and " + e], [a, "and", e];
    FirstReading(a, m);
    WordFacts(a);
    AndLengthFacts(m);
    KeptOfKept(kept);
    SameText(a, e);
    WordIsPlain(a);
    NoSeparatorIn("and");
    LengthTermIsClean(m);
    PlainTermsReadBack(parts);
    LengthTermReadsBack(m);
    assert parts[2] in Split(Join(kept)) && !IsKept(parts[2]);
    PolicyIsIdempotent(Some(Unsettled(a, m)));
  }

  lemma StartsWithLength(n: nat, rest: seq<string>)
    requires rest != []
    ensures var s := Join([LengthTerm(n)] + rest);
            Find(s, SEPARATOR).Some? && s[..Find(s, SEPARATOR).value] == LengthTerm(n)
  {
    LengthTermIsClean(n);
    var terms := [LengthTerm(n)] + rest;
    assert terms[1..] == rest;
    FirstSeparator(LengthTerm(n), Join(rest));
  }

  lemma NoSeparatorIn(s: string)
    requires forall i :: 0 <= i < |s| - 4 ==> s[i] != ' ' || s[i + 4] != ' '
    ensures !Contains(s, SEPARATOR)
  {
    forall i | 0 <= i <= |s| - |SEPARATOR| ensures !OccursAt(s, SEPARATOR, i) {
      OccursByLetters(s, SEPARATOR, i);
      assert SEPARATOR[0] == SEPARATOR[4] == ' ';
      assert s[i + 0] == s[i];
    }
  }
}

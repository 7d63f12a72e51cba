/** The semantic version value: its parser and printer undo each other, its order is total, and the
    next patch is the least release above. Numeric identifiers are u64. */
module SemVer {
  import opened Decimal
  import opened Order
  import opened Text
  import opened Wrappers

  const U64_MAX: nat := 0xFFFF_FFFF_FFFF_FFFF

  datatype Identifier = Numeric(value: nat) | Alpha(text: string)

  datatype Version = Version(major: nat, minor: nat, patch: nat, prerelease: seq<Identifier>, build: Option<string>)

  // ---- Parsing --------------------------------------------------------------------------

  predicate IsIdentifierChar(c: char) {
    IsDigit(c) || 'a' <= c <= 'z' || 'A' <= c <= 'Z' || c == '-'
  }

  predicate ValidPart(part: string) {
    part != "" && forall i | 0 <= i < |part| :: IsIdentifierChar(part[i])
  }

  /** Dot-separated, each part non-empty and of identifier characters. */
  predicate ValidIdentifiers(raw: string) {
    forall i | 0 <= i < |Split(raw, '.')| :: ValidPart(Split(raw, '.')[i])
  }

  /** `str::parse::<u64>` on digits. */
  function ParseU64(s: string): Option<nat>
    requires AllDigits(s)
  {
    if Value(s) <= U64_MAX then Some(Value(s)) else None
  }

  function ParseCore(part: string): Option<nat> {
    if part == "" || !AllDigits(part) || (|part| > 1 && part[0] == '0') then None else ParseU64(part)
  }

  function ParseIdentifier(part: string): Option<Identifier> {
    if AllDigits(part) then
      if |part| > 1 && part[0] == '0' then None
      else
        var n := ParseU64(part);
        if n.None? then None else Some(Numeric(n.value))
    else Some(Alpha(part))
  }

  function ParseAll(parts: seq<string>): Option<seq<Identifier>> {
    if parts == [] then Some([])
    else
      var first := ParseIdentifier(parts[0]);
      var rest := ParseAll(parts[1..]);
      if first.None? || rest.None? then None else Some([first.value] + rest.value)
  }

  function ParsePrerelease(raw: string): Option<seq<Identifier>> {
    if !ValidIdentifiers(raw) then None else ParseAll(Split(raw, '.'))
  }

  /** What precedes and follows the first separator; a separator with nothing after it is refused
      by the callers. */
  datatype Halves = Halves(left: string, right: Option<string>)

  function SplitOnce(s: string, c: char): Halves {
    var i := Find(s, c);
    if i == |s| then Halves(s, None) else Halves(s[..i], Some(s[i + 1..]))
  }

  predicate BuildAccepted(right: string) {
    right != "" && '+' !in right && ValidIdentifiers(right)
  }

  function ParseNumbers(core: string): Option<(nat, nat, nat)> {
    var parts := Split(core, '.');
    if |parts| != 3 then None
    else
      var (major, minor, patch) := (ParseCore(parts[0]), ParseCore(parts[1]), ParseCore(parts[2]));
      if major.None? || minor.None? || patch.None? then None else Some((major.value, minor.value, patch.value))
  }

  function ParseDashed(dash: Halves, build: Option<string>): Option<Version> {
    if dash.right == Some("") then None
    else
      var prerelease := if dash.right.None? then Some([]) else ParsePrerelease(dash.right.value);
      var numbers := ParseNumbers(dash.left);
      if prerelease.None? || numbers.None? then None
      else Some(Version(numbers.value.0, numbers.value.1, numbers.value.2, prerelease.value, build))
  }

  function ParsePrecedence(precedence: string, build: Option<string>): Option<Version> {
    ParseDashed(SplitOnce(precedence, '-'), build)
  }

  function ParseHalves(plus: Halves): Option<Version> {
    if plus.right.Some? && !BuildAccepted(plus.right.value) then None else ParsePrecedence(plus.left, plus.right)
  }

  function Parse(raw: string): Option<Version> {
    if raw == "" || Trim(raw) != raw then None else ParseHalves(SplitOnce(raw, '+'))
  }

  // ---- Printing -------------------------------------------------------------------------

  function PrintIdentifier(id: Identifier): string {
    match id
    case Numeric(n) => Show(n)
    case Alpha(text) => text
  }

  function PrintAll(ids: seq<Identifier>): (parts: seq<string>)
    ensures |parts| == |ids| && forall i | 0 <= i < |ids| :: parts[i] == PrintIdentifier(ids[i])
  {
    seq(|ids|, i requires 0 <= i < |ids| => PrintIdentifier(ids[i]))
  }

  function PrintCore(v: Version): string {
    Show(v.major) + ['.'] + Show(v.minor) + ['.'] + Show(v.patch)
  }

  function PrintPrecedence(v: Version): string {
    if v.prerelease == [] then PrintCore(v) else PrintCore(v) + ['-'] + Join(PrintAll(v.prerelease), '.')
  }

  function Print(v: Version): string {
    if v.build.None? then PrintPrecedence(v) else PrintPrecedence(v) + ['+'] + v.build.value
  }

  // ---- Well-formed versions -------------------------------------------------------------

  predicate WellFormedIdentifier(id: Identifier) {
    match id
    case Numeric(n) => n <= U64_MAX
    case Alpha(text) => ValidPart(text) && !AllDigits(text)
  }

  /** Items 2, 9 and 10 of Semantic Versioning 2.0.0, with 64-bit numbers. */
  predicate WellFormed(v: Version) {
    && v.major <= U64_MAX && v.minor <= U64_MAX && v.patch <= U64_MAX
    && (forall i | 0 <= i < |v.prerelease| :: WellFormedIdentifier(v.prerelease[i]))
    && (v.build.Some? ==> v.build.value != "" && ValidIdentifiers(v.build.value))
  }

  // ---- Parts ----------------------------------------------------------------------------

  lemma {:induction false} ShowIsPart(n: nat)
    ensures ValidPart(Show(n)) && AllDigits(Show(n)) && '-' !in Show(n)
  {
    ValueOfShow(n);
  }

  lemma {:induction false} CoreRoundTrip(n: nat)
    requires n <= U64_MAX
    ensures ParseCore(Show(n)) == Some(n)
  {
    ValueOfShow(n);
  }

  lemma {:induction false} CoreIsPrinted(part: string)
    requires ParseCore(part).Some?
    ensures Show(ParseCore(part).value) == part && ParseCore(part).value <= U64_MAX
  {
    ShowOfValue(part);
  }

  lemma {:induction false} IdentifierRoundTrip(id: Identifier)
    requires WellFormedIdentifier(id)
    ensures ValidPart(PrintIdentifier(id)) && ParseIdentifier(PrintIdentifier(id)) == Some(id)
  {
    if id.Numeric? {
      ValueOfShow(id.value);
      ShowIsPart(id.value);
    }
  }

  lemma {:induction false} IdentifierIsPrinted(part: string)
    requires ValidPart(part) && ParseIdentifier(part).Some?
    ensures WellFormedIdentifier(ParseIdentifier(part).value) && PrintIdentifier(ParseIdentifier(part).value) == part
  {
    if AllDigits(part) {
      ShowOfValue(part);
    }
  }

  lemma {:induction false} ParseAllRoundTrip(ids: seq<Identifier>)
    requires forall i | 0 <= i < |ids| :: WellFormedIdentifier(ids[i])
    ensures ParseAll(PrintAll(ids)) == Some(ids)
  {
    if ids != [] {
      ParseAllRoundTrip(ids[1..]);
      assert PrintAll(ids)[1..] == PrintAll(ids[1..]);
      IdentifierRoundTrip(ids[0]);
      assert ids == [ids[0]] + ids[1..];
    }
  }

  lemma {:induction false} ParseAllIsPrinted(parts: seq<string>)
    requires (forall i | 0 <= i < |parts| :: ValidPart(parts[i])) && ParseAll(parts).Some?
    ensures PrintAll(ParseAll(parts).value) == parts
    ensures forall i | 0 <= i < |parts| :: WellFormedIdentifier(ParseAll(parts).value[i])
  {
    if parts != [] {
      ParseAllIsPrinted(parts[1..]);
      IdentifierIsPrinted(parts[0]);
    }
  }

  // ---- The whole ------------------------------------------------------------------------

  /** Identifier characters and dots: everything before a plus. */
  predicate DottedChar(c: char) {
    IsIdentifierChar(c) || c == '.'
  }

  predicate Dotted(s: string) {
    forall i | 0 <= i < |s| :: DottedChar(s[i])
  }

  lemma {:induction false} JoinIsDotted(parts: seq<string>)
    requires parts != [] && forall i | 0 <= i < |parts| :: ValidPart(parts[i])
    ensures Dotted(Join(parts, '.')) && Join(parts, '.') != ""
  {
    if |parts| > 1 {
      JoinIsDotted(parts[1..]);
    }
  }

  lemma {:induction false} PrereleaseRoundTrip(ids: seq<Identifier>)
    requires ids != [] && forall i | 0 <= i < |ids| :: WellFormedIdentifier(ids[i])
    ensures var text := Join(PrintAll(ids), '.');
            text != "" && Dotted(text) && ParsePrerelease(text) == Some(ids)
  {
    var parts := PrintAll(ids);
    forall i | 0 <= i < |parts|
      ensures ValidPart(parts[i]) && '.' !in parts[i]
    {
      IdentifierRoundTrip(ids[i]);
    }
    JoinIsDotted(parts);
    SplitOfJoin(parts, '.');
    ParseAllRoundTrip(ids);
  }

  lemma {:induction false} PrereleaseIsPrinted(text: string)
    requires ParsePrerelease(text).Some?
    ensures var ids := ParsePrerelease(text).value;
            && ids != [] && Join(PrintAll(ids), '.') == text
            && forall i | 0 <= i < |ids| :: WellFormedIdentifier(ids[i])
  {
    ParseAllIsPrinted(Split(text, '.'));
    JoinOfSplit(text, '.');
  }

  lemma {:induction false} CoreIsDotted(v: Version)
    ensures Dotted(PrintCore(v)) && '-' !in PrintCore(v) && PrintCore(v) != ""
  {
    ShowIsPart(v.major);
    ShowIsPart(v.minor);
    ShowIsPart(v.patch);
  }

  lemma {:induction false} NumbersRoundTrip(v: Version)
    requires v.major <= U64_MAX && v.minor <= U64_MAX && v.patch <= U64_MAX
    ensures ParseNumbers(PrintCore(v)) == Some((v.major, v.minor, v.patch))
  {
    var parts := [Show(v.major), Show(v.minor), Show(v.patch)];
    ShowIsPart(v.major);
    ShowIsPart(v.minor);
    ShowIsPart(v.patch);
    JoinThree(parts[0], parts[1], parts[2], '.');
    SplitOfJoin(parts, '.');
    CoreRoundTrip(v.major);
    CoreRoundTrip(v.minor);
    CoreRoundTrip(v.patch);
  }

  lemma {:induction false} JoinThree<T>(a: seq<T>, b: seq<T>, c: seq<T>, dot: T)
    ensures Join([a, b, c], dot) == a + [dot] + b + [dot] + c
  {
    assert [a, b, c][1..] == [b, c] && [b, c][1..] == [c];
    assert Join([b, c], dot) == b + [dot] + c;
  }

  lemma {:induction false} NumbersArePrinted(core: string)
    requires ParseNumbers(core).Some?
    ensures var n := ParseNumbers(core).value;
            && n.0 <= U64_MAX && n.1 <= U64_MAX && n.2 <= U64_MAX
            && Show(n.0) + ['.'] + Show(n.1) + ['.'] + Show(n.2) == core
  {
    var parts := Split(core, '.');
    JoinOfSplit(core, '.');
    CoreIsPrinted(parts[0]);
    CoreIsPrinted(parts[1]);
    CoreIsPrinted(parts[2]);
    JoinThree(parts[0], parts[1], parts[2], '.');
    assert parts == [parts[0], parts[1], parts[2]];
  }

  lemma {:induction false} SplitOnceJoined(left: string, c: char, right: string)
    requires c !in left
    ensures SplitOnce(left + [c] + right, c) == Halves(left, Some(right))
    ensures SplitOnce(left, c) == Halves(left, None)
  {
    FindAfter(left, c, right);
    NotFound(left, c);
    var s := left + [c] + right;
    assert s[..|left|] == left && s[|left| + 1..] == right;
  }

  lemma {:induction false} SplitOnceIsJoined(s: string, c: char)
    ensures var h := SplitOnce(s, c);
            && c !in h.left
            && s == if h.right.Some? then h.left + [c] + h.right.value else h.left
  {
    var i := Find(s, c);
    if i < |s| {
      assert s == s[..i] + [c] + s[i + 1..];
    }
  }

  /** The text after the first dash, if any. */
  function PrintedTail(v: Version): Option<string> {
    if v.prerelease == [] then None else Some(Join(PrintAll(v.prerelease), '.'))
  }

  lemma {:induction false} DashSplits(v: Version)
    ensures SplitOnce(PrintPrecedence(v), '-') == Halves(PrintCore(v), PrintedTail(v))
  {
    CoreIsDotted(v);
    SplitOnceJoined(PrintCore(v), '-', if v.prerelease == [] then "" else Join(PrintAll(v.prerelease), '.'));
  }

  lemma {:induction false} DashedRoundTrip(v: Version)
    requires WellFormed(v)
    ensures ParseDashed(Halves(PrintCore(v), PrintedTail(v)), v.build) == Some(v)
  {
    NumbersRoundTrip(v);
    if v.prerelease != [] {
      PrereleaseRoundTrip(v.prerelease);
    }
  }

  lemma {:induction false} PrecedenceRoundTrip(v: Version)
    requires WellFormed(v)
    ensures ParsePrecedence(PrintPrecedence(v), v.build) == Some(v)
  {
    DashSplits(v);
    DashedRoundTrip(v);
  }

  lemma {:induction false} PrecedenceIsDotted(v: Version)
    requires WellFormed(v)
    ensures Dotted(PrintPrecedence(v)) && PrintPrecedence(v) != ""
  {
    CoreIsDotted(v);
    if v.prerelease != [] {
      PrereleaseRoundTrip(v.prerelease);
    }
  }

  lemma {:induction false} PrecedenceIsPrinted(precedence: string, build: Option<string>)
    requires ParsePrecedence(precedence, build).Some?
    ensures var v := ParsePrecedence(precedence, build).value;
            && PrintPrecedence(v) == precedence && v.build == build
            && v.major <= U64_MAX && v.minor <= U64_MAX && v.patch <= U64_MAX
            && forall i | 0 <= i < |v.prerelease| :: WellFormedIdentifier(v.prerelease[i])
  {
    var dash := SplitOnce(precedence, '-');
    SplitOnceIsJoined(precedence, '-');
    NumbersArePrinted(dash.left);
    if dash.right.Some? {
      PrereleaseIsPrinted(dash.right.value);
    }
  }

  predicate VersionChars(s: string) {
    forall i | 0 <= i < |s| :: DottedChar(s[i]) || s[i] == '+'
  }

  lemma {:induction false} VersionCharsAreTrimmed(s: string)
    requires VersionChars(s)
    ensures Trim(s) == s
  {
    assert forall c: char | DottedChar(c) || c == '+' :: !IsWhitespace(c);
    CoreIsItself(IsWhitespace, s);
  }

  lemma {:induction false} ValidIdentifiersAreDotted(raw: string)
    requires ValidIdentifiers(raw)
    ensures Dotted(raw)
  {
    JoinIsDotted(Split(raw, '.'));
    JoinOfSplit(raw, '.');
  }

  lemma {:induction false} PrintedChars(v: Version)
    requires WellFormed(v)
    ensures VersionChars(Print(v)) && Print(v) != ""
  {
    PrecedenceIsDotted(v);
    if v.build.Some? {
      ValidIdentifiersAreDotted(v.build.value);
    }
  }

  lemma {:induction false} PrecedenceHasNoPlus(v: Version)
    requires WellFormed(v)
    ensures '+' !in PrintPrecedence(v)
  {
    PrecedenceIsDotted(v);
  }

  lemma {:induction false} PlusSplits(v: Version)
    requires WellFormed(v)
    ensures SplitOnce(Print(v), '+') == Halves(PrintPrecedence(v), v.build)
  {
    PrecedenceHasNoPlus(v);
    SplitOnceJoined(PrintPrecedence(v), '+', if v.build.Some? then v.build.value else "");
  }

  lemma {:induction false} HalvesRoundTrip(v: Version)
    requires WellFormed(v)
    ensures ParseHalves(Halves(PrintPrecedence(v), v.build)) == Some(v)
  {
    PrecedenceRoundTrip(v);
    if v.build.Some? {
      ValidIdentifiersAreDotted(v.build.value);
    }
  }

  /** Every well-formed version, build metadata included, is read back from its text. */
  lemma {:induction false} ParseOfPrint(v: Version)
    requires WellFormed(v)
    ensures Parse(Print(v)) == Some(v)
  {
    PrintedChars(v);
    VersionCharsAreTrimmed(Print(v));
    PlusSplits(v);
    HalvesRoundTrip(v);
  }

  /** Every accepted text is the text of a well-formed version: printing what was parsed gives the
      text back. */
  lemma {:induction false} PrintOfParse(raw: string)
    requires Parse(raw).Some?
    ensures WellFormed(Parse(raw).value) && Print(Parse(raw).value) == raw
  {
    var plus := SplitOnce(raw, '+');
    SplitOnceIsJoined(raw, '+');
    PrecedenceIsPrinted(plus.left, plus.right);
  }

  ghost predicate IsVersionText(raw: string) {
    exists v :: WellFormed(v) && Print(v) == raw
  }

  /** So the parser accepts exactly the texts of well-formed versions. */
  lemma {:induction false} AcceptsExactly(raw: string)
    ensures Parse(raw).Some? <==> IsVersionText(raw)
  {
    if Parse(raw).Some? {
      PrintOfParse(raw);
    }
    if IsVersionText(raw) {
      var v :| WellFormed(v) && Print(v) == raw;
      ParseOfPrint(v);
    }
  }

  // ---- The grammar ----------------------------------------------------------------------

  /** The pieces a version is spelled with. */
  datatype Spelling = Spelling(major: string, minor: string, patch: string, prerelease: seq<string>, build: seq<string>)
  {
    function Text(): string {
      major + "." + minor + "." + patch
      + (if prerelease == [] then "" else "-" + Join(prerelease, '.'))
      + (if build == [] then "" else "+" + Join(build, '.'))
    }
  }

  predicate AllNumerals(s: string) {
    forall i | 0 <= i < |s| :: '0' <= s[i] <= '9'
  }

  /** A number of 64 bits without leading zeros. */
  predicate IsNumeral(s: string) {
    s != "" && AllNumerals(s) && (s[0] == '0' ==> s == "0") && Value(s) < 0x1_0000_0000_0000_0000
  }

  predicate IsWord(s: string) {
    s != "" && forall i | 0 <= i < |s| ::
                 '0' <= s[i] <= '9' || 'A' <= s[i] <= 'Z' || 'a' <= s[i] <= 'z' || s[i] == '-'
  }

  /** Items 2, 9 and 10 of Semantic Versioning 2.0.0. */
  predicate Legal(p: Spelling) {
    && IsNumeral(p.major) && IsNumeral(p.minor) && IsNumeral(p.patch)
    && (forall i | 0 <= i < |p.prerelease| ::
          IsWord(p.prerelease[i]) && (AllNumerals(p.prerelease[i]) ==> IsNumeral(p.prerelease[i])))
    && (forall i | 0 <= i < |p.build| :: IsWord(p.build[i]))
  }

  predicate Names(piece: string, id: Identifier) {
    if AllNumerals(piece) then id == Numeric(Value(piece)) else id == Alpha(piece)
  }

  predicate Spells(p: Spelling, v: Version)
    requires Legal(p)
  {
    && Value(p.major) == v.major && Value(p.minor) == v.minor && Value(p.patch) == v.patch
    && |p.prerelease| == |v.prerelease|
    && (forall i | 0 <= i < |p.prerelease| :: Names(p.prerelease[i], v.prerelease[i]))
    && v.build == if p.build == [] then None else Some(Join(p.build, '.'))
  }

  ghost predicate IsSpelled(raw: string, v: Version) {
    exists p: Spelling :: Legal(p) && p.Text() == raw && Spells(p, v)
  }

  lemma {:induction false} PartsAreWords(part: string)
    ensures ValidPart(part) <==> IsWord(part)
  {
  }

  lemma {:induction false} PieceOfIdentifier(id: Identifier)
    requires WellFormedIdentifier(id)
    ensures var piece := PrintIdentifier(id);
            IsWord(piece) && (AllNumerals(piece) ==> IsNumeral(piece)) && Names(piece, id)
  {
    if id.Numeric? {
      ValueOfShow(id.value);
    }
  }

  lemma {:induction false} IdentifierOfPiece(piece: string, id: Identifier)
    requires IsWord(piece) && (AllNumerals(piece) ==> IsNumeral(piece)) && Names(piece, id)
    ensures WellFormedIdentifier(id) && PrintIdentifier(id) == piece
  {
    if AllNumerals(piece) {
      ShowOfValue(piece);
    }
  }

  lemma {:induction false} PrintedNumeral(n: nat)
    requires n <= U64_MAX
    ensures IsNumeral(Show(n)) && Value(Show(n)) == n
  {
    ValueOfShow(n);
  }

  lemma {:induction false} PiecesOf(v: Version) returns (p: Spelling)
    requires WellFormed(v)
    ensures Legal(p) && Spells(p, v) && p.prerelease == PrintAll(v.prerelease)
    ensures p.major == Show(v.major) && p.minor == Show(v.minor) && p.patch == Show(v.patch)
    ensures v.build.Some? ==> p.build != [] && Join(p.build, '.') == v.build.value
  {
    var build := if v.build.Some? then Split(v.build.value, '.') else [];
    p := Spelling(Show(v.major), Show(v.minor), Show(v.patch), PrintAll(v.prerelease), build);
    PrintedNumeral(v.major);
    PrintedNumeral(v.minor);
    PrintedNumeral(v.patch);
    forall i | 0 <= i < |p.prerelease|
      ensures IsWord(p.prerelease[i]) && (AllNumerals(p.prerelease[i]) ==> IsNumeral(p.prerelease[i]))
      ensures Names(p.prerelease[i], v.prerelease[i])
    {
      PieceOfIdentifier(v.prerelease[i]);
    }
    if v.build.Some? {
      JoinOfSplit(v.build.value, '.');
    }
  }

  lemma {:induction false} SpelledIsWellFormed(p: Spelling, v: Version)
    requires Legal(p) && Spells(p, v)
    ensures WellFormed(v) && PrintAll(v.prerelease) == p.prerelease
    ensures Show(v.major) == p.major && Show(v.minor) == p.minor && Show(v.patch) == p.patch
  {
    ShowOfValue(p.major);
    ShowOfValue(p.minor);
    ShowOfValue(p.patch);
    forall i | 0 <= i < |p.prerelease|
      ensures WellFormedIdentifier(v.prerelease[i]) && PrintIdentifier(v.prerelease[i]) == p.prerelease[i]
    {
      IdentifierOfPiece(p.prerelease[i], v.prerelease[i]);
    }
    if p.build != [] {
      WordsAreIdentifiers(p.build);
    }
  }

  lemma {:induction false} WordsAreIdentifiers(words: seq<string>)
    requires words != [] && forall i | 0 <= i < |words| :: IsWord(words[i])
    ensures Join(words, '.') != "" && ValidIdentifiers(Join(words, '.'))
  {
    forall i | 0 <= i < |words|
      ensures ValidPart(words[i]) && '.' !in words[i]
    {
      PartsAreWords(words[i]);
    }
    SplitOfJoin(words, '.');
    JoinIsDotted(words);
  }

  lemma {:induction false} TextIsPrint(p: Spelling, v: Version)
    requires p.prerelease == PrintAll(v.prerelease)
    requires p.major == Show(v.major) && p.minor == Show(v.minor) && p.patch == Show(v.patch)
    requires v.build == if p.build == [] then None else Some(Join(p.build, '.'))
    ensures p.Text() == Print(v)
  {
  }

  /** What is read: exactly the texts of the grammar, each as the version it spells. */
  lemma {:induction false} ReadsTheGrammar(raw: string, v: Version)
    ensures Parse(raw) == Some(v) <==> IsSpelled(raw, v)
  {
    if Parse(raw) == Some(v) {
      PrintOfParse(raw);
      var p := PiecesOf(v);
      TextIsPrint(p, v);
    }
    if IsSpelled(raw, v) {
      var p: Spelling :| Legal(p) && p.Text() == raw && Spells(p, v);
      SpelledIsWellFormed(p, v);
      TextIsPrint(p, v);
      ParseOfPrint(v);
    }
  }

  /** The white-space test of the parser refuses nothing that its other checks would accept. */
  lemma {:induction false} TrimTestIsRedundant(raw: string)
    requires raw != "" && Trim(raw) != raw
    ensures ParseHalves(SplitOnce(raw, '+')).None?
  {
    var plus := SplitOnce(raw, '+');
    SplitOnceIsJoined(raw, '+');
    if ParseHalves(plus).Some? {
      PrecedenceIsPrinted(plus.left, plus.right);
      var v := ParsePrecedence(plus.left, plus.right).value;
      PrintedChars(v);
      VersionCharsAreTrimmed(raw);
    }
  }

  // ---- Precedence -----------------------------------------------------------------------

  /** Equality ignores build metadata. */
  predicate SameVersion(a: Version, b: Version) {
    a.major == b.major && a.minor == b.minor && a.patch == b.patch && a.prerelease == b.prerelease
  }

  function CompareIdentifiers(a: Identifier, b: Identifier): Ordering {
    match (a, b)
    case (Numeric(m), Numeric(n)) => CompareInts(m, n)
    case (Numeric(_), Alpha(_)) => Less
    case (Alpha(_), Numeric(_)) => Greater
    case (Alpha(s), Alpha(t)) => CompareStrings(s, t)
  }

  function ComparePrerelease(a: seq<Identifier>, b: seq<Identifier>): Ordering {
    if a == [] || b == [] then CompareInts(|a|, |b|)
    else CompareIdentifiers(a[0], b[0]).Then(ComparePrerelease(a[1..], b[1..]))
  }

  function CompareReleaseOrPre(a: seq<Identifier>, b: seq<Identifier>): Ordering {
    if a == [] && b == [] then Equal
    else if a == [] then Greater
    else if b == [] then Less
    else ComparePrerelease(a, b)
  }

  function Compare(a: Version, b: Version): Ordering {
    CompareInts(a.major, b.major).Then(CompareInts(a.minor, b.minor)).Then(CompareInts(a.patch, b.patch))
    .Then(CompareReleaseOrPre(a.prerelease, b.prerelease))
  }

  lemma {:induction false} IdentifiersAreOrdered(a: Identifier, b: Identifier)
    ensures CompareIdentifiers(b, a) == CompareIdentifiers(a, b).Reverse()
    ensures CompareIdentifiers(a, b) == Equal <==> a == b
  {
    if a.Alpha? && b.Alpha? {
      LexicographicReverses(CodePoints(a.text), CodePoints(b.text));
      LexicographicEquality(CodePoints(a.text), CodePoints(b.text));
      if CodePoints(a.text) == CodePoints(b.text) {
        CodePointsInjective(a.text, b.text);
      }
    }
  }

  lemma {:induction false} IdentifiersAreTransitive(a: Identifier, b: Identifier, c: Identifier)
    requires CompareIdentifiers(a, b) != Greater && CompareIdentifiers(b, c) != Greater
    ensures CompareIdentifiers(a, c) != Greater
    ensures CompareIdentifiers(a, b) == Less || CompareIdentifiers(b, c) == Less ==> CompareIdentifiers(a, c) == Less
  {
    if a.Alpha? && b.Alpha? && c.Alpha? {
      LexicographicTransitive(CodePoints(a.text), CodePoints(b.text), CodePoints(c.text));
    }
  }

  lemma {:induction false} PrereleasesAreOrdered(a: seq<Identifier>, b: seq<Identifier>)
    ensures ComparePrerelease(b, a) == ComparePrerelease(a, b).Reverse()
    ensures ComparePrerelease(a, b) == Equal <==> a == b
  {
    if a != [] && b != [] {
      IdentifiersAreOrdered(a[0], b[0]);
      PrereleasesAreOrdered(a[1..], b[1..]);
      assert a == [a[0]] + a[1..] && b == [b[0]] + b[1..];
    }
  }

  lemma {:induction false} PrereleasesAreTransitive(a: seq<Identifier>, b: seq<Identifier>, c: seq<Identifier>)
    requires ComparePrerelease(a, b) != Greater && ComparePrerelease(b, c) != Greater
    ensures ComparePrerelease(a, c) != Greater
    ensures ComparePrerelease(a, b) == Less || ComparePrerelease(b, c) == Less ==> ComparePrerelease(a, c) == Less
  {
    if a != [] && b != [] && c != [] {
      IdentifiersAreTransitive(a[0], b[0], c[0]);
      IdentifiersAreOrdered(a[0], b[0]);
      IdentifiersAreOrdered(b[0], c[0]);
      IdentifiersAreOrdered(a[0], c[0]);
      if a[0] == b[0] == c[0] {
        PrereleasesAreTransitive(a[1..], b[1..], c[1..]);
      }
    }
  }

  lemma {:induction false} TailsAreOrdered(a: seq<Identifier>, b: seq<Identifier>)
    ensures CompareReleaseOrPre(b, a) == CompareReleaseOrPre(a, b).Reverse()
    ensures CompareReleaseOrPre(a, b) == Equal <==> a == b
  {
    PrereleasesAreOrdered(a, b);
  }

  lemma {:induction false} TailsAreTransitive(a: seq<Identifier>, b: seq<Identifier>, c: seq<Identifier>)
    requires CompareReleaseOrPre(a, b) != Greater && CompareReleaseOrPre(b, c) != Greater
    ensures CompareReleaseOrPre(a, c) != Greater
    ensures CompareReleaseOrPre(a, b) == Less || CompareReleaseOrPre(b, c) == Less ==> CompareReleaseOrPre(a, c) == Less
  {
    if a != [] && b != [] && c != [] {
      PrereleasesAreTransitive(a, b, c);
    }
  }

  /** The comparison is a total order on versions whose equality is the build-ignoring one: it
      reverses, it is equal exactly on the same version, and it is transitive, strictly so when
      either step is strict. */
  lemma {:induction false} ComparisonIsATotalOrder(a: Version, b: Version, c: Version)
    ensures Compare(b, a) == Compare(a, b).Reverse()
    ensures Compare(a, b) == Equal <==> SameVersion(a, b)
    ensures Compare(a, b) != Greater && Compare(b, c) != Greater ==>
              && Compare(a, c) != Greater
              && (Compare(a, b) == Less || Compare(b, c) == Less ==> Compare(a, c) == Less)
  {
    TailsAreOrdered(a.prerelease, b.prerelease);
    TailsAreOrdered(b.prerelease, c.prerelease);
    TailsAreOrdered(a.prerelease, c.prerelease);
    if CompareReleaseOrPre(a.prerelease, b.prerelease) != Greater
      && CompareReleaseOrPre(b.prerelease, c.prerelease) != Greater {
      TailsAreTransitive(a.prerelease, b.prerelease, c.prerelease);
    }
  }

  // ---- Section 11 of Semantic Versioning 2.0.0 -------------------------------------------

  /** Numeric identifiers by number, alphanumeric ones by character, numeric below alphanumeric. */
  ghost predicate LowerIdentifier(a: Identifier, b: Identifier) {
    || (a.Numeric? && b.Numeric? && a.value < b.value)
    || (a.Numeric? && b.Alpha?)
    || (a.Alpha? && b.Alpha? && Smaller(a.text, b.text))
  }

  /** A pre-release is below its release; of two, the first different identifier decides, and a proper prefix is
      below. */
  ghost predicate LowerPrerelease(a: seq<Identifier>, b: seq<Identifier>) {
    || (a != [] && b == [])
    || (a != [] && a < b)
    || exists i | 0 <= i < |a| && i < |b| :: a[..i] == b[..i] && LowerIdentifier(a[i], b[i])
  }

  ghost predicate Precedes(a: Version, b: Version) {
    if a.major != b.major then a.major < b.major
    else if a.minor != b.minor then a.minor < b.minor
    else if a.patch != b.patch then a.patch < b.patch
    else LowerPrerelease(a.prerelease, b.prerelease)
  }

  lemma {:induction false} IdentifiersCompare(a: Identifier, b: Identifier)
    ensures CompareIdentifiers(a, b) == Less <==> LowerIdentifier(a, b)
  {
    if a.Alpha? && b.Alpha? {
      StringsCompare(a.text, b.text);
    }
  }

  lemma {:induction false} FirstDifferentIdentifier(a: seq<Identifier>, b: seq<Identifier>) returns (i: nat)
    requires ComparePrerelease(a, b) == Less
    ensures i <= |a| && i < |b| && a[..i] == b[..i] && (i < |a| ==> LowerIdentifier(a[i], b[i]))
  {
    if a == [] || CompareIdentifiers(a[0], b[0]) == Less {
      i := 0;
      if a != [] {
        IdentifiersCompare(a[0], b[0]);
      }
    } else {
      IdentifiersAreOrdered(a[0], b[0]);
      var k := FirstDifferentIdentifier(a[1..], b[1..]);
      i := k + 1;
      assert a[..i] == [a[0]] + a[1..][..k] && b[..i] == [b[0]] + b[1..][..k];
    }
  }

  lemma {:induction false} DecidedByIdentifier(a: seq<Identifier>, b: seq<Identifier>, i: nat)
    requires i <= |a| && i < |b| && a[..i] == b[..i] && (i < |a| ==> LowerIdentifier(a[i], b[i]))
    ensures ComparePrerelease(a, b) == Less
  {
    if i > 0 {
      assert a[0] == a[..i][0] == b[..i][0] == b[0];
      assert a[1..][..i - 1] == a[..i][1..] && b[1..][..i - 1] == b[..i][1..];
      IdentifiersAreOrdered(a[0], b[0]);
      DecidedByIdentifier(a[1..], b[1..], i - 1);
    } else if a != [] {
      IdentifiersCompare(a[0], b[0]);
    }
  }

  lemma {:induction false} PrereleasesCompare(a: seq<Identifier>, b: seq<Identifier>)
    ensures CompareReleaseOrPre(a, b) == Less <==> LowerPrerelease(a, b)
  {
    if a != [] && b != [] {
      if ComparePrerelease(a, b) == Less {
        var i := FirstDifferentIdentifier(a, b);
      }
      if a < b {
        DecidedByIdentifier(a, b, |a|);
      } else if LowerPrerelease(a, b) {
        var i :| 0 <= i < |a| && i < |b| && a[..i] == b[..i] && LowerIdentifier(a[i], b[i]);
        DecidedByIdentifier(a, b, i);
      }
    }
  }

  /** The order is the one of the standard: major, minor, patch, then the first different identifier. */
  lemma {:induction false} ComparesByPrecedence(a: Version, b: Version)
    ensures Compare(a, b) == Less <==> Precedes(a, b)
    ensures Compare(a, b) == Greater <==> Precedes(b, a)
  {
    PrereleasesCompare(a.prerelease, b.prerelease);
    PrereleasesCompare(b.prerelease, a.prerelease);
    TailsAreOrdered(a.prerelease, b.prerelease);
  }

  // ---- The next patch -------------------------------------------------------------------

  function NextPatch(v: Version): Version {
    if v.prerelease != [] then Version(v.major, v.minor, v.patch, [], None)
    else Version(v.major, v.minor, if v.patch < U64_MAX then v.patch + 1 else U64_MAX, [], None)
  }

  predicate IsRelease(v: Version) {
    v.prerelease == []
  }

  /** The least release strictly above a version. */
  ghost predicate LeastReleaseAbove(v: Version, next: Version) {
    && WellFormed(next) && IsRelease(next) && Compare(v, next) == Less
    && forall w | WellFormed(w) && IsRelease(w) && Compare(v, w) == Less :: Compare(next, w) != Greater
  }

  /** The next patch is the least release strictly above exactly when the version is a prerelease
      or its patch can still grow. */
  lemma {:induction false} NextPatchIsLeast(v: Version)
    requires WellFormed(v)
    ensures LeastReleaseAbove(v, NextPatch(v)) <==> !(IsRelease(v) && v.patch == U64_MAX)
    ensures IsRelease(v) && v.patch == U64_MAX ==> SameVersion(NextPatch(v), v)
    ensures NextPatch(v).build.None?
  {
    var next := NextPatch(v);
    if IsRelease(v) && v.patch == U64_MAX {
      assert Compare(v, next) == Equal;
    } else {
      forall w | WellFormed(w) && IsRelease(w) && Compare(v, w) == Less
        ensures Compare(next, w) != Greater
      {
      }
    }
  }
}

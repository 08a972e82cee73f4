/**
 * The multipart/form-data writer of the vendor client and the parser its test double uses to read
 * the request: section 4.1 of RFC 7578 and section 5.1.1 of RFC 2046.
 */
module Multipart {
  import opened Common
  import opened Strings

  datatype Field = Field(name: string, value: string)

  const CRLF: string := "\r\n"
  const BLANK_LINE: string := "\r\n\r\n"
  const DISPOSITION: string := "Content-Disposition"
  const HEADER: string := "Content-Disposition: form-data; name="
  const NAME_IS: string := "name=\""

  // --- string searches -----------------------------------------------------------

  /** One wrong character rules an occurrence out. */
  lemma Mismatch(pattern: string, text: string, i: int, k: nat)
    requires 0 <= i <= |text| - |pattern| ==> k < |pattern| && text[i + k] != pattern[k]
    ensures !OccursAt(pattern, text, i)
  {
    if 0 <= i <= |text| - |pattern| {
      assert text[i..i + |pattern|][k] == text[i + k];
    }
  }

  /** The first occurrence from position `i` on. */
  function FindFrom(text: string, pattern: string, i: nat): (r: Option<nat>)
    requires i <= |text|
    ensures r.Some? ==> i <= r.value && OccursAt(pattern, text, r.value)
    ensures forall j :: i <= j && (r.Some? ==> j < r.value) ==> !OccursAt(pattern, text, j)
    decreases |text| - i
  {
    if OccursAt(pattern, text, i) then Some(i)
    else if i == |text| then None
    else FindFrom(text, pattern, i + 1)
  }

  function Find(text: string, pattern: string): Option<nat> { FindFrom(text, pattern, 0) }

  function Split(text: string, separator: string): (parts: seq<string>)
    requires separator != []
    ensures parts != []
    decreases |text|
  {
    match Find(text, separator)
    case None => [text]
    case Some(i) => [text[..i]] + Split(text[i + |separator|..], separator)
  }

  function RemoveSuffix(text: string, suffix: string): string {
    if |suffix| <= |text| && text[|text| - |suffix|..] == suffix then text[..|text| - |suffix|] else text
  }

  /** The length of the run of characters other than the double quote. */
  function QuoteFreeRun(text: string, i: nat): (n: nat)
    requires i <= |text|
    ensures i + n <= |text|
    ensures forall j :: i <= j < i + n ==> text[j] != '"'
    ensures i + n == |text| || text[i + n] == '"'
    decreases |text| - i
  {
    if i == |text| || text[i] == '"' then 0 else 1 + QuoteFreeRun(text, i + 1)
  }

  lemma QuoteRunIs(text: string, i: nat, n: nat)
    requires i + n < |text| && text[i + n] == '"' && forall j :: i <= j < i + n ==> text[j] != '"'
    ensures QuoteFreeRun(text, i) == n
  {
  }

  /** `name="([^"]+)"` anchored at `i`. */
  function NameAt(header: string, i: nat): Option<string> {
    if OccursAt(NAME_IS, header, i) then
      var n := QuoteFreeRun(header, i + |NAME_IS|);
      if n > 0 && i + |NAME_IS| + n < |header| then Some(header[i + |NAME_IS|..i + |NAME_IS| + n]) else None
    else None
  }

  function SearchName(header: string, i: nat): Option<string>
    requires i <= |header|
    decreases |header| - i
  {
    if NameAt(header, i).Some? then NameAt(header, i)
    else if i == |header| then None
    else SearchName(header, i + 1)
  }

  // --- writer ---------------------------------------------------------------------

  function Delimiter(boundary: string): string { "--" + boundary }

  function PartBody(f: Field): string { CRLF + HEADER + ['"'] + f.name + ['"'] + BLANK_LINE + f.value + CRLF }

  function Build(fields: seq<Field>, boundary: string): string {
    if fields == [] then Delimiter(boundary) + "--" + CRLF
    else Delimiter(boundary) + PartBody(fields[0]) + Build(fields[1..], boundary)
  }

  /** The body on the wire: a part per field, name in the header and value after a blank line, and the end mark. */
  lemma WireForm(f: Field, rest: seq<Field>, boundary: string)
    ensures Build([f] + rest, boundary) ==
            ("--" + boundary)
            + ("\r\n" + "Content-Disposition: form-data; name=" + "\"" + f.name + "\"" + "\r\n\r\n" + f.value + "\r\n")
            + Build(rest, boundary)
    ensures Build([], boundary) == "--" + boundary + "--\r\n"
  {
    assert ([f] + rest)[1..] == rest;
  }

  function ContentType(boundary: string): string { "multipart/form-data; boundary=" + boundary }

  // --- parser ----------------------------------------------------------------------

  /** The header and the value of one part: the text around the first blank line. */
  function HeaderOf(part: string): string {
    match Find(part, BLANK_LINE) case Some(i) => part[..i] case None => part
  }

  function ValueOf(part: string): string {
    match Find(part, BLANK_LINE) case Some(i) => RemoveSuffix(part[i + |BLANK_LINE|..], CRLF) case None => ""
  }

  /** None stands for the parser's failed assertion: a disposition without a name. */
  function ReadParts(parts: seq<string>): Option<map<string, string>> {
    if parts == [] then Some(map[])
    else
      var last := parts[|parts| - 1];
      var before := ReadParts(parts[..|parts| - 1]);
      if before.None? || !OccursIn(DISPOSITION, last) then before
      else
        match SearchName(HeaderOf(last), 0)
        case None => None
        case Some(name) => Some(before.value[name := ValueOf(last)])
  }

  function BoundaryOf(contentType: string): Option<string> {
    match Find(contentType, "boundary=")
    case None => None
    case Some(i) => Some(contentType[i + |"boundary="|..])
  }

  function Parse(body: string, boundary: string): Option<map<string, string>> {
    ReadParts(Split(body, Delimiter(boundary)))
  }

  method ParseMultipart(body: string, contentType: string) returns (fields: Option<map<string, string>>)
    requires BoundaryOf(contentType).Some?
    ensures fields == Parse(body, BoundaryOf(contentType).value)
  {
    var parts := Split(body, Delimiter(BoundaryOf(contentType).value));
    var read: map<string, string> := map[];
    for i := 0 to |parts|
      invariant ReadParts(parts[..i]) == Some(read)
    {
      var part := parts[i];
      assert parts[..i + 1][..i] == parts[..i];
      if OccursIn(DISPOSITION, part) {
        var name := SearchName(HeaderOf(part), 0);
        if name.None? {
          assert ReadParts(parts[..i + 1]).None?;
          FailureLasts(parts, i + 1);
          return None;
        }
        read := read[name.value := ValueOf(part)];
      }
    }
    assert parts[..|parts|] == parts;
    fields := Some(read);
  }

  lemma {:induction false} FailureLasts(parts: seq<string>, n: nat)
    requires n <= |parts| && ReadParts(parts[..n]).None?
    ensures ReadParts(parts).None?
    decreases |parts| - n
  {
    if n == |parts| {
      assert parts[..n] == parts;
    } else {
      assert parts[..n + 1][..n] == parts[..n];
      FailureLasts(parts, n + 1);
    }
  }

  // --- where the delimiter can occur ---------------------------------------------------

  predicate LineAndQuoteFree(s: string) { '\r' !in s && '\n' !in s && '"' !in s }

  /** A boundary as the writer makes it: no line break or quote, and long enough to be told from the end mark. */
  predicate UsableBoundary(boundary: string) { |boundary| > 2 && LineAndQuoteFree(boundary) }

  /** A character the pattern lacks keeps its occurrences on one side or the other. */
  lemma Barrier(left: string, c: char, right: string, pattern: string)
    requires c !in pattern
    ensures OccursIn(pattern, left + [c] + right) ==> OccursIn(pattern, left) || OccursIn(pattern, right)
  {
    var text := left + [c] + right;
    if !OccursIn(pattern, left) && !OccursIn(pattern, right) {
      forall i | 0 <= i <= |text| - |pattern| ensures !OccursAt(pattern, text, i) {
        if i + |pattern| <= |left| {
          assert left[i..i + |pattern|] == text[i..i + |pattern|];
          assert !OccursAt(pattern, left, i);
        } else if i > |left| {
          var k := i - |left| - 1;
          assert right[k..k + |pattern|] == text[i..i + |pattern|];
          assert !OccursAt(pattern, right, k);
        } else {
          Mismatch(pattern, text, i, |left| - i);
        }
      }
    }
  }

  lemma DashesNotInHeader(boundary: string)
    requires UsableBoundary(boundary)
    ensures !OccursIn(Delimiter(boundary), HEADER)
  {
    var d := Delimiter(boundary);
    forall i | 0 <= i <= |HEADER| - |d| ensures !OccursAt(d, HEADER, i) {
      assert HEADER[i] != '-' || HEADER[i + 1] != '-';
      Mismatch(d, HEADER, i, if HEADER[i] != '-' then 0 else 1);
    }
  }

  lemma NotInShort(pattern: string, text: string)
    requires |text| < |pattern|
    ensures !OccursIn(pattern, text)
  {
  }

  lemma PartIsDelimiterFree(f: Field, boundary: string)
    requires UsableBoundary(boundary)
    requires !OccursIn(Delimiter(boundary), f.name) && !OccursIn(Delimiter(boundary), f.value)
    ensures !OccursIn(Delimiter(boundary), PartBody(f))
  {
    var d := Delimiter(boundary);
    var named := HEADER + ['"'] + f.name;
    var tail := BLANK_LINE + f.value + CRLF;
    NotInShort(d, "");
    NotInShort(d, "\r");
    DashesNotInHeader(boundary);
    Barrier(HEADER, '"', f.name, d);
    Barrier("\r", '\n', named, d);
    assert "\r" + ['\n'] + named == CRLF + named;
    assert f.value + ['\r'] + "\n" == f.value + CRLF;
    NotInShort(d, "\n");
    Barrier(f.value, '\r', "\n", d);
    NotInShort(d, "\r\n\r");
    Barrier("\r\n\r", '\n', f.value + CRLF, d);
    assert "\r\n\r" + ['\n'] + (f.value + CRLF) == tail;
    Barrier(CRLF + named, '"', tail, d);
    assert CRLF + named + ['"'] + tail == PartBody(f);
  }

  /** A delimiter-free text that ends a line is split off whole at the delimiter that follows it. */
  lemma SplitAfterLine(line: string, d: string, rest: string)
    requires d != [] && !OccursIn(d, line) && (line != [] ==> line[|line| - 1] !in d)
    ensures Split(line + d + rest, d) == [line] + Split(rest, d)
  {
    var text := line + d + rest;
    forall j | 0 <= j < |line| ensures !OccursAt(d, text, j) {
      if j + |d| <= |line| {
        assert line[j..j + |d|] == text[j..j + |d|];
        assert !OccursAt(d, line, j);
      } else {
        assert text[|line| - 1] == line[|line| - 1];
        Mismatch(d, text, j, |line| - 1 - j);
      }
    }
    assert text[|line|..|line| + |d|] == d;
    assert OccursAt(d, text, |line|);
    assert Find(text, d) == Some(|line|);
    assert text[..|line|] == line && text[|line| + |d|..] == rest;
  }

  predicate DelimiterFree(fields: seq<Field>, boundary: string) {
    forall f <- fields :: !OccursIn(Delimiter(boundary), f.name) && !OccursIn(Delimiter(boundary), f.value)
  }

  function PartsOf(fields: seq<Field>): seq<string> {
    if fields == [] then ["--" + CRLF] else [PartBody(fields[0])] + PartsOf(fields[1..])
  }

  function AfterFirstDelimiter(fields: seq<Field>, boundary: string): string {
    if fields == [] then "--" + CRLF else PartBody(fields[0]) + Build(fields[1..], boundary)
  }

  lemma {:induction false} SplitBuilt(fields: seq<Field>, boundary: string)
    requires UsableBoundary(boundary) && DelimiterFree(fields, boundary)
    ensures Split(AfterFirstDelimiter(fields, boundary), Delimiter(boundary)) == PartsOf(fields)
  {
    var d := Delimiter(boundary);
    if fields == [] {
      NotInShort(d, "--" + CRLF);
    } else {
      var part := PartBody(fields[0]);
      var rest := AfterFirstDelimiter(fields[1..], boundary);
      PartIsDelimiterFree(fields[0], boundary);
      BuildStartsWithDelimiter(fields[1..], boundary);
      assert AfterFirstDelimiter(fields, boundary) == part + d + rest;
      SplitAfterLine(part, d, rest);
      SplitBuilt(fields[1..], boundary);
    }
  }

  lemma BuildStartsWithDelimiter(fields: seq<Field>, boundary: string)
    ensures Build(fields, boundary) == Delimiter(boundary) + AfterFirstDelimiter(fields, boundary)
  {
    if fields == [] {
      Reassociate(Delimiter(boundary), "--", CRLF);
    } else {
      Reassociate(Delimiter(boundary), PartBody(fields[0]), Build(fields[1..], boundary));
    }
  }

  lemma Reassociate(a: string, b: string, c: string)
    ensures a + b + c == a + (b + c)
  {
  }

  lemma SplitBody(fields: seq<Field>, boundary: string)
    requires UsableBoundary(boundary) && DelimiterFree(fields, boundary)
    ensures Split(Build(fields, boundary), Delimiter(boundary)) == [""] + PartsOf(fields)
  {
    var d, rest := Delimiter(boundary), AfterFirstDelimiter(fields, boundary);
    BuildStartsWithDelimiter(fields, boundary);
    assert "" + d + rest == d + rest;
    NotInShort(d, "");
    SplitAfterLine("", d, rest);
    SplitBuilt(fields, boundary);
  }

  // --- reading one part --------------------------------------------------------------------

  predicate GoodName(name: string) { name != "" && LineAndQuoteFree(name) }

  lemma FirstBlankLine(f: Field)
    requires GoodName(f.name)
    ensures Find(PartBody(f), BLANK_LINE) == Some(|CRLF + HEADER + ['"'] + f.name + ['"']|)
  {
    var part := PartBody(f);
    var top := CRLF + HEADER + ['"'] + f.name + ['"'];
    assert part == top + BLANK_LINE + (f.value + CRLF);
    assert HEADER[0] == 'C' && part[2] == HEADER[0];
    assert forall j :: 0 <= j < |HEADER| ==> HEADER[j] != '\r';
    assert top[2 + |HEADER| + 1..2 + |HEADER| + 1 + |f.name|] == f.name;
    assert part[|top|..|top| + |BLANK_LINE|] == BLANK_LINE;
    assert OccursAt(BLANK_LINE, part, |top|);
    assert forall j :: 0 <= j < |top| ==> part[j] == top[j];
    assert forall j :: 2 <= j < |top| ==> top[j] != '\r';
    forall j | 0 <= j < |top| ensures !OccursAt(BLANK_LINE, part, j) {
      Mismatch(BLANK_LINE, part, j, if j == 0 then 2 else 0);
    }
  }

  lemma PartSearch(f: Field)
    requires GoodName(f.name)
    ensures SearchName(CRLF + HEADER + ['"'] + f.name + ['"'], 0) == Some(f.name)
  {
    var top := CRLF + HEADER + ['"'] + f.name + ['"'];
    var quote := |CRLF + HEADER|;
    assert forall j :: 0 <= j < quote ==> top[j] != '"';
    var at := quote - 5;
    assert top[at..at + 6] == NAME_IS;
    assert forall j :: quote < j < |top| - 1 ==> top[j] == f.name[j - quote - 1];
    assert top[quote + 1 + |f.name|] == '"';
    QuoteRunIs(top, quote + 1, |f.name|);
    assert top[quote + 1..quote + 1 + |f.name|] == f.name;
    assert NameAt(top, at) == Some(f.name);
    NothingBefore(top, at, 0);
  }

  lemma {:induction false} NothingBefore(header: string, at: nat, i: nat)
    requires i <= at && at + 5 < |header| && NameAt(header, at).Some?
    requires forall j :: 0 <= j < at + 5 ==> header[j] != '"'
    ensures SearchName(header, i) == NameAt(header, at)
    decreases at - i
  {
    if i == at {
    } else {
      assert NAME_IS[5] == '"';
      Mismatch(NAME_IS, header, i, 5);
      NothingBefore(header, at, i + 1);
    }
  }

  lemma PartReadsBack(f: Field)
    requires GoodName(f.name)
    ensures OccursIn(DISPOSITION, PartBody(f))
    ensures SearchName(HeaderOf(PartBody(f)), 0) == Some(f.name)
    ensures ValueOf(PartBody(f)) == f.value
  {
    FirstBlankLine(f);
    PartSearch(f);
    PartPieces(f);
  }

  lemma PartPieces(f: Field)
    ensures var part, top := PartBody(f), CRLF + HEADER + ['"'] + f.name + ['"'];
            && part[..|top|] == top
            && RemoveSuffix(part[|top| + |BLANK_LINE|..], CRLF) == f.value
            && OccursIn(DISPOSITION, part)
  {
    var part := PartBody(f);
    var top := CRLF + HEADER + ['"'] + f.name + ['"'];
    assert part == top + BLANK_LINE + (f.value + CRLF);
    assert part[|top| + |BLANK_LINE|..] == f.value + CRLF;
    assert (f.value + CRLF)[|f.value|..] == CRLF;
    assert HEADER[..|DISPOSITION|] == DISPOSITION;
    assert part[2..2 + |DISPOSITION|] == HEADER[..|DISPOSITION|];
    assert OccursAt(DISPOSITION, part, 2);
  }

  // --- the round trip -------------------------------------------------------------------------

  function ToMap(fields: seq<Field>): map<string, string> {
    if fields == [] then map[]
    else
      var last := fields[|fields| - 1];
      ToMap(fields[..|fields| - 1])[last.name := last.value]
  }

  lemma ReadOneMore(parts: seq<string>, f: Field)
    requires GoodName(f.name) && ReadParts(parts).Some?
    ensures ReadParts(parts + [PartBody(f)]) == Some(ReadParts(parts).value[f.name := f.value])
  {
    PartReadsBack(f);
    assert (parts + [PartBody(f)])[..|parts|] == parts;
  }

  lemma {:induction false} ReadBack(fields: seq<Field>)
    requires forall f <- fields :: GoodName(f.name)
    ensures ReadParts([""] + Bodies(fields)) == Some(ToMap(fields))
  {
    if fields == [] {
      NotInShort(DISPOSITION, "");
      assert [""][..0] == [];
    } else {
      var n := |fields| - 1;
      ReadBack(fields[..n]);
      ReadOneMore([""] + Bodies(fields[..n]), fields[n]);
      assert [""] + (Bodies(fields[..n]) + [PartBody(fields[n])]) == [""] + Bodies(fields[..n]) + [PartBody(fields[n])];
    }
  }

  function Bodies(fields: seq<Field>): seq<string> {
    if fields == [] then [] else Bodies(fields[..|fields| - 1]) + [PartBody(fields[|fields| - 1])]
  }

  lemma {:induction false} BodiesFromFront(fields: seq<Field>)
    requires fields != []
    ensures Bodies(fields) == [PartBody(fields[0])] + Bodies(fields[1..])
  {
    var n := |fields| - 1;
    if n == 0 {
    } else {
      BodiesFromFront(fields[..n]);
      assert fields[1..][..n - 1] == fields[..n][1..];
    }
  }

  lemma {:induction false} PartsAreBodies(fields: seq<Field>)
    ensures PartsOf(fields) == Bodies(fields) + ["--" + CRLF]
  {
    if fields == [] {
    } else {
      PartsAreBodies(fields[1..]);
      BodiesFromFront(fields);
    }
  }

  lemma EpilogueIsSkipped(parts: seq<string>)
    ensures ReadParts(parts + ["--" + CRLF]) == ReadParts(parts)
  {
    NotInShort(DISPOSITION, "--" + CRLF);
    assert (parts + ["--" + CRLF])[..|parts|] == parts;
  }

  lemma PartsReadBack(fields: seq<Field>)
    requires forall f <- fields :: GoodName(f.name)
    ensures ReadParts([""] + PartsOf(fields)) == Some(ToMap(fields))
  {
    var bodies := Bodies(fields);
    PartsAreBodies(fields);
    ReadBack(fields);
    EpilogueIsSkipped([""] + bodies);
    assert [""] + (bodies + ["--" + CRLF]) == [""] + bodies + ["--" + CRLF];
  }

  /** Parsing the built body gives the fields back, whatever blank lines or headers the values hold. */
  lemma RoundTrip(fields: seq<Field>, boundary: string)
    requires UsableBoundary(boundary) && DelimiterFree(fields, boundary)
    requires forall f <- fields :: GoodName(f.name)
    ensures Parse(Build(fields, boundary), boundary) == Some(ToMap(fields))
  {
    SplitBody(fields, boundary);
    PartsReadBack(fields);
  }

  // --- and only then -----------------------------------------------------------------------------

  lemma SliceOfSlice(text: string, i: nat, j: nat, k: nat, n: nat)
    requires i <= j <= |text| && k + n <= j - i
    ensures text[i..j][k..k + n] == text[i + k..i + k + n]
  {
    var a, b := text[i..j][k..k + n], text[i + k..i + k + n];
    forall x | 0 <= x < n ensures a[x] == b[x] {
      assert a[x] == text[i..j][k + x] == text[i + k + x];
    }
  }

  lemma SubstringOccurs(pattern: string, text: string, i: nat, j: nat)
    requires i <= j <= |text| && OccursIn(pattern, text[i..j])
    ensures OccursIn(pattern, text)
  {
    var k :| 0 <= k <= |text[i..j]| - |pattern| && OccursAt(pattern, text[i..j], k);
    SliceOfSlice(text, i, j, k, |pattern|);
    assert OccursAt(pattern, text, i + k);
  }

  lemma {:induction false} SplitLeavesNoSeparator(text: string, d: string)
    requires d != []
    ensures forall part <- Split(text, d) :: !OccursIn(d, part)
    decreases |text|
  {
    match Find(text, d) {
      case None =>
        forall i | 0 <= i <= |text| - |d| ensures !OccursAt(d, text, i) {}
      case Some(i) =>
        forall j | 0 <= j <= i - |d| ensures !OccursAt(d, text[..i], j) {
          assert !OccursAt(d, text, j);
          assert text[..i][j..j + |d|] == text[j..j + |d|];
        }
        SplitLeavesNoSeparator(text[i + |d|..], d);
    }
  }

  lemma ReadTextIsSubstring(part: string, d: string)
    requires !OccursIn(d, part) && d != []
    ensures !OccursIn(d, ValueOf(part))
    ensures SearchName(HeaderOf(part), 0).Some? ==> !OccursIn(d, SearchName(HeaderOf(part), 0).value)
  {
    match Find(part, BLANK_LINE) {
      case None => NotInShort(d, "");
      case Some(i) =>
        var tail := part[i + |BLANK_LINE|..];
        assert tail == part[i + |BLANK_LINE|..|part|];
        assert ValueOf(part) == tail[0..|ValueOf(part)|];
        if OccursIn(d, ValueOf(part)) {
          SubstringOccurs(d, tail, 0, |ValueOf(part)|);
          SubstringOccurs(d, part, i + |BLANK_LINE|, |part|);
        }
        if OccursIn(d, part[0..i]) { SubstringOccurs(d, part, 0, i); }
        assert part[0..i] == part[..i];
    }
    SearchedNameIsSubstring(HeaderOf(part), 0, d);
  }

  lemma {:induction false} SearchedNameIsSubstring(header: string, i: nat, d: string)
    requires i <= |header| && !OccursIn(d, header)
    ensures SearchName(header, i).Some? ==> !OccursIn(d, SearchName(header, i).value)
    decreases |header| - i
  {
    if NameAt(header, i).Some? {
      var start := i + |NAME_IS|;
      var n := QuoteFreeRun(header, start);
      if OccursIn(d, header[start..start + n]) { SubstringOccurs(d, header, start, start + n); }
    } else if i < |header| {
      SearchedNameIsSubstring(header, i + 1, d);
    }
  }

  lemma {:induction false} ReadMapIsDelimiterFree(parts: seq<string>, d: string)
    requires d != [] && forall part <- parts :: !OccursIn(d, part)
    ensures ReadParts(parts).Some? ==>
              forall name <- ReadParts(parts).value :: !OccursIn(d, name) && !OccursIn(d, ReadParts(parts).value[name])
  {
    if parts == [] {
    } else {
      ReadMapIsDelimiterFree(parts[..|parts| - 1], d);
      ReadTextIsSubstring(parts[|parts| - 1], d);
    }
  }

  predicate DistinctNames(fields: seq<Field>) {
    forall i, j :: 0 <= i < j < |fields| ==> fields[i].name != fields[j].name
  }

  lemma {:induction false} ToMapHolds(fields: seq<Field>)
    requires DistinctNames(fields)
    ensures forall f <- fields :: f.name in ToMap(fields) && ToMap(fields)[f.name] == f.value
    ensures forall name <- ToMap(fields) :: exists f <- fields :: f.name == name
  {
    if fields == [] {
    } else {
      var n := |fields| - 1;
      ToMapHolds(fields[..n]);
      assert fields == fields[..n] + [fields[n]];
    }
  }

  /** A form comes back unchanged exactly when its names and values are free of the delimiter. */
  lemma RoundTripIffDelimiterFree(fields: seq<Field>, boundary: string)
    requires UsableBoundary(boundary) && DistinctNames(fields)
    requires forall f <- fields :: GoodName(f.name)
    ensures Parse(Build(fields, boundary), boundary) == Some(ToMap(fields)) <==> DelimiterFree(fields, boundary)
  {
    if DelimiterFree(fields, boundary) {
      RoundTrip(fields, boundary);
    } else {
      var d := Delimiter(boundary);
      SplitLeavesNoSeparator(Build(fields, boundary), d);
      ReadMapIsDelimiterFree(Split(Build(fields, boundary), d), d);
      ToMapHolds(fields);
    }
  }

  lemma BoundaryReadsBack(boundary: string)
    ensures BoundaryOf(ContentType(boundary)) == Some(boundary)
  {
    var prefix, mark := "multipart/form-data; ", "boundary=";
    var text := ContentType(boundary);
    assert text == prefix + mark + boundary;
    assert text[|prefix|..|prefix| + |mark|] == mark;
    assert OccursAt(mark, text, |prefix|);
    forall j | 0 <= j < |prefix| ensures !OccursAt(mark, text, j) {
      assert text[j] == prefix[j] && prefix[j] != 'b' && mark[0] == 'b';
      Mismatch(mark, text, j, 0);
    }
    assert text[|prefix| + |mark|..] == boundary;
  }
}

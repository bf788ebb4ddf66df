/** The audit log of the file store: one JSON line an event, listed newest first. */
module AuditListing {
  import opened Wrappers

  datatype Operator = Operator(id: string, name: Option<string>, source: string, assertedId: Option<string>)

  // `details` is that object's JSON, on one line.
  datatype Event = Event(
    id: string, timestamp: string, eventType: string, status: string, action: Option<string>,
    sessionId: Option<string>, approvalId: Option<string>, jobId: Option<string>, operator: Operator, details: string)

  // ---- How an event is written ------------------------------------------------------------------------------

  function HexDigit(n: nat): char {
    if n < 16 then "0123456789abcdef"[n] else '0'
  }

  /** A character inside a JSON string; above ASCII it stands for itself. */
  function Escaped(c: char): string {
    if c == '"' then "\\\""
    else if c == '\\' then "\\\\"
    else if c == '\n' then "\\n"
    else if c == '\r' then "\\r"
    else if c == '\t' then "\\t"
    else if c == '\U{8}' then "\\b"
    else if c == '\U{c}' then "\\f"
    else if c < ' ' then "\\u00" + [HexDigit(c as int / 16), HexDigit(c as int % 16)]
    else [c]
  }

  function EscapedAll(value: string): string {
    if value == "" then "" else Escaped(value[0]) + EscapedAll(value[1..])
  }

  function Quoted(value: string): string {
    "\"" + EscapedAll(value) + "\""
  }

  function OrNull(value: Option<string>): string {
    if value.None? then "null" else Quoted(value.value)
  }

  function Pieces(event: Event): seq<string> {
    [ "{\"id\":", Quoted(event.id), ",\"timestamp\":", Quoted(event.timestamp),
      ",\"event_type\":", Quoted(event.eventType), ",\"status\":", Quoted(event.status),
      ",\"action\":", OrNull(event.action), ",\"session_id\":", OrNull(event.sessionId),
      ",\"approval_id\":", OrNull(event.approvalId), ",\"job_id\":", OrNull(event.jobId),
      ",\"operator\":{\"id\":", Quoted(event.operator.id), ",\"name\":", OrNull(event.operator.name),
      ",\"source\":", Quoted(event.operator.source), ",\"asserted_id\":", OrNull(event.operator.assertedId),
      "},\"details\":", event.details, "}" ]
  }

  function Joined(pieces: seq<string>): string {
    if pieces == [] then "" else pieces[0] + Joined(pieces[1..])
  }

  function Encoded(event: Event): string {
    Joined(Pieces(event))
  }

  // ---- The shortcut -------------------------------------------------------------------------------------------

  /** Plain, printable ASCII with nothing a JSON string escapes. */
  predicate VerbatimInJson(value: string) {
    forall c | c in value :: ' ' <= c <= '~' && c != '"' && c != '\\'
  }

  predicate IsAt(text: string, value: string, i: nat) {
    i + |value| <= |text| && text[i..i + |value|] == value
  }

  predicate Holds(text: string, value: string) {
    exists i | 0 <= i <= |text| :: IsAt(text, value, i)
  }

  lemma PlainIsUnescaped(c: char)
    requires ' ' <= c && c != '"' && c != '\\'
    ensures Escaped(c) == [c]
  {
  }

  lemma {:induction false} VerbatimIsUnescaped(value: string)
    requires VerbatimInJson(value)
    ensures EscapedAll(value) == value
  {
    hide Escaped;
    if value == "" {
    } else {
      assert value[0] in value && forall c | c in value[1..] :: c in value;
      PlainIsUnescaped(value[0]);
      VerbatimIsUnescaped(value[1..]);
      assert value == [value[0]] + value[1..];
    }
  }

  lemma {:induction false} JoinedHoldsPiece(pieces: seq<string>, k: nat) returns (i: nat)
    requires k < |pieces|
    ensures IsAt(Joined(pieces), pieces[k], i)
  {
    if k == 0 {
      i := 0;
    } else {
      var j := JoinedHoldsPiece(pieces[1..], k - 1);
      i := |pieces[0]| + j;
      assert Joined(pieces)[i..i + |pieces[k]|] == Joined(pieces[1..])[j..j + |pieces[k]|];
    }
  }

  /** A value the shortcut looks for is in the line of every event with a field that has it. */
  lemma LineHoldsField(event: Event, k: nat, value: string)
    requires VerbatimInJson(value) && k < |Pieces(event)| && Pieces(event)[k] == Quoted(value)
    ensures Holds(Encoded(event), value)
  {
    hide Joined, Pieces, EscapedAll;
    var i := JoinedHoldsPiece(Pieces(event), k);
    VerbatimIsUnescaped(value);
    var line := Encoded(event);
    assert line[i..i + |value| + 2] == "\"" + value + "\"";
    forall j | 0 <= j < |value| ensures line[i + 1 + j] == value[j] {
      assert line[i..i + |value| + 2][1 + j] == value[j];
    }
    assert line[i + 1..i + 1 + |value|] == value;
    assert IsAt(line, value, i + 1);
  }

  // ---- What a string reads as ---------------------------------------------------------------------------------

  function HexValue(c: char): Option<nat> {
    if '0' <= c <= '9' then Some((c - '0') as nat)
    else if 'a' <= c <= 'f' then Some((c - 'a') as nat + 10)
    else if 'A' <= c <= 'F' then Some((c - 'A') as nat + 10)
    else None
  }

  /** The character an escape stands for, and how long the escape is: section 7 of RFC 8259, surrogates aside. */
  function ReadEscape(text: string): Option<(char, nat)>
    requires text != "" && text[0] == '\\'
  {
    if |text| < 2 then None
    else
      match text[1]
      case '"' => Some(('"', 2))
      case '\\' => Some(('\\', 2))
      case '/' => Some(('/', 2))
      case 'b' => Some(('\U{8}', 2))
      case 'f' => Some(('\U{c}', 2))
      case 'n' => Some(('\n', 2))
      case 'r' => Some(('\r', 2))
      case 't' => Some(('\t', 2))
      case 'u' =>
        if |text| < 6 then None
        else
          var a, b, c, d := HexValue(text[2]), HexValue(text[3]), HexValue(text[4]), HexValue(text[5]);
          if a.None? || b.None? || c.None? || d.None? then None
          else
            var code := 4096 * a.value + 256 * b.value + 16 * c.value + d.value;
            if code < 0xd800 then Some((code as char, 6)) else None
      case _ => None
  }

  /** What the inside of a JSON string reads as; a bare quote or control character cannot stand in one. */
  function ReadString(text: string): Option<string>
    decreases |text|
  {
    if text == "" then Some("")
    else if text[0] == '\\' then
      var escape := ReadEscape(text);
      if escape.None? || escape.value.1 == 0 || escape.value.1 > |text| then None
      else
        var rest := ReadString(text[escape.value.1..]);
        if rest.None? then None else Some([escape.value.0] + rest.value)
    else if text[0] == '"' || text[0] < ' ' then None
    else
      var rest := ReadString(text[1..]);
      if rest.None? then None else Some([text[0]] + rest.value)
  }

  lemma HexDigitsRead(n: nat)
    requires n < 16
    ensures HexValue(HexDigit(n)) == Some(n)
  {
  }

  lemma ControlReads(c: char, rest: string)
    requires c < ' '
    ensures ReadEscape("\\u00" + [HexDigit(c as int / 16), HexDigit(c as int % 16)] + rest) == Some((c, 6))
  {
    HexDigitsRead(c as int / 16);
    HexDigitsRead(c as int % 16);
  }

  lemma EscapeReads(c: char, rest: string)
    ensures
      var text := Escaped(c) + rest;
      if text[0] == '\\' then ReadEscape(text) == Some((c, |Escaped(c)|))
      else Escaped(c) == [c] && c != '"' && c >= ' '
  {
    if c < ' ' {
      ControlReads(c, rest);
    }
  }

  /** A value is read back from the string it is written as, whatever its characters. */
  lemma {:induction false} EscapedReadsBack(value: string)
    ensures ReadString(EscapedAll(value)) == Some(value)
  {
    hide Escaped, ReadEscape;
    if value == "" {
    } else {
      EscapedReadsBack(value[1..]);
      EscapeReads(value[0], EscapedAll(value[1..]));
      NotEmpty(value[0]);
      var text := EscapedAll(value);
      assert text[|Escaped(value[0])|..] == EscapedAll(value[1..]);
      assert value == [value[0]] + value[1..];
    }
  }

  lemma NotEmpty(c: char)
    ensures Escaped(c) != ""
  {
  }

  // ---- Listing --------------------------------------------------------------------------------------------------

  datatype Filter = Filter(sessionId: Option<string>, eventType: Option<string>, operatorId: Option<string>)

  predicate Wanted(value: Option<string>) {
    value.Some? && value.value != ""
  }

  predicate Matches(filter: Filter, event: Event) {
    && (Wanted(filter.sessionId) ==> event.sessionId == filter.sessionId)
    && (Wanted(filter.eventType) ==> event.eventType == filter.eventType.value)
    && (Wanted(filter.operatorId) ==> event.operator.id == filter.operatorId.value)
  }

  function Needle(value: Option<string>): seq<string> {
    if Wanted(value) && VerbatimInJson(value.value) then [value.value] else []
  }

  function Needles(filter: Filter): seq<string> {
    Needle(filter.sessionId) + Needle(filter.eventType) + Needle(filter.operatorId)
  }

  predicate HoldsAll(line: string, needles: seq<string>) {
    forall i | 0 <= i < |needles| :: Holds(line, needles[i])
  }

  /** The characters the source's strip takes for space. */
  predicate IsSpace(c: char) {
    || '\t' <= c <= '\r' || '\U{1c}' <= c <= ' ' || c == '\U{85}' || c == '\U{a0}' || c == '\U{1680}'
    || '\U{2000}' <= c <= '\U{200a}' || '\U{2028}' <= c <= '\U{2029}' || c == '\U{202f}' || c == '\U{205f}' || c == '\U{3000}'
  }

  function LeftStripped(line: string): string {
    if line != "" && IsSpace(line[0]) then LeftStripped(line[1..]) else line
  }

  function RightStripped(line: string): string {
    if line != "" && IsSpace(line[|line| - 1]) then RightStripped(line[..|line| - 1]) else line
  }

  function Stripped(line: string): string {
    RightStripped(LeftStripped(line))
  }

  /** What is left of a stripped line: its middle, all of it but the space at both ends. */
  lemma StrippedIsTheMiddle(line: string) returns (i: nat, j: nat)
    ensures i <= j <= |line| && Stripped(line) == line[i..j]
    ensures forall k | 0 <= k < i || j <= k < |line| :: IsSpace(line[k])
    ensures i < j ==> !IsSpace(line[i]) && !IsSpace(line[j - 1])
  {
    hide IsSpace;
    i := LeftIsTheRest(line);
    var rest := line[i..];
    var n := RightIsTheBeginning(rest);
    j := i + n;
    assert rest[..n] == line[i..j];
    forall k | j <= k < |line| ensures IsSpace(line[k]) {
      assert line[k] == rest[k - i];
    }
  }

  lemma {:induction false} LeftIsTheRest(line: string) returns (i: nat)
    ensures i <= |line| && LeftStripped(line) == line[i..]
    ensures (forall k | 0 <= k < i :: IsSpace(line[k])) && (i < |line| ==> !IsSpace(line[i]))
  {
    hide IsSpace;
    if line != "" && IsSpace(line[0]) {
      i := LeftIsTheRest(line[1..]);
      assert forall k | 0 <= k < i :: line[1..][k] == line[k + 1];
      i := i + 1;
    } else {
      i := 0;
    }
  }

  lemma {:induction false} RightIsTheBeginning(line: string) returns (n: nat)
    ensures n <= |line| && RightStripped(line) == line[..n]
    ensures (forall k | n <= k < |line| :: IsSpace(line[k])) && (n > 0 ==> !IsSpace(line[n - 1]))
  {
    hide IsSpace;
    if line != "" && IsSpace(line[|line| - 1]) {
      n := RightIsTheBeginning(line[..|line| - 1]);
    } else {
      n := |line|;
    }
  }

  // What the validator makes of a line: an event, or nothing where it raises.
  type Reader = string -> Option<Event>

  /** The events of the log that match, oldest first: every line validated, none looked into before. */
  function Matching(reader: Reader, lines: seq<string>, filter: Filter): seq<Event> {
    if lines == [] then []
    else
      var event := reader(Stripped(lines[|lines| - 1]));
      Matching(reader, lines[..|lines| - 1], filter)
      + if Stripped(lines[|lines| - 1]) != "" && event.Some? && Matches(filter, event.value) then [event.value] else []
  }

  function Reversed<T>(xs: seq<T>): (r: seq<T>)
    ensures |r| == |xs|
  {
    if xs == [] then [] else [xs[|xs| - 1]] + Reversed(xs[..|xs| - 1])
  }

  function AtMost<T>(xs: seq<T>, limit: nat): seq<T> {
    if |xs| <= limit then xs else xs[..limit]
  }

  /** A line as the log writes it, or one the validator refuses: torn, blank, or two run together. */
  predicate AsWritten(reader: Reader, line: string) {
    reader(Stripped(line)).Some? ==> Stripped(line) == Encoded(reader(Stripped(line)).value)
  }

  /** The shortcut passes over no line that could match. */
  predicate ShortcutIsSafe(reader: Reader, filter: Filter, line: string) {
    var event := reader(Stripped(line));
    Stripped(line) != "" && event.Some? && Matches(filter, event.value) ==> HoldsAll(Stripped(line), Needles(filter))
  }

  lemma WrittenLinesAreSafe(reader: Reader, filter: Filter, line: string)
    requires AsWritten(reader, line)
    ensures ShortcutIsSafe(reader, filter, line)
  {
    hide Encoded, EscapedAll, Stripped;
    var found := reader(Stripped(line));
    if found.Some? && Matches(filter, found.value) {
      var event := found.value;
      if Needle(filter.sessionId) != [] {
        LineHoldsField(event, 11, filter.sessionId.value);
      }
      if Needle(filter.eventType) != [] {
        LineHoldsField(event, 5, filter.eventType.value);
      }
      if Needle(filter.operatorId) != [] {
        LineHoldsField(event, 17, filter.operatorId.value);
      }
    }
  }

  /** The newest matches, newest first, as many as were asked for. */
  function Listing(reader: Reader, lines: seq<string>, limit: int, filter: Filter): seq<Event> {
    if limit <= 0 then [] else AtMost(Reversed(Matching(reader, lines, filter)), limit)
  }

  /** The lines the scan looks into: those that hold every needle. */
  function LookedInto(lines: seq<string>, needles: seq<string>): seq<string> {
    if lines == [] then []
    else
      var last := lines[|lines| - 1];
      LookedInto(lines[..|lines| - 1], needles) + if HoldsAll(Stripped(last), needles) then [last] else []
  }

  /** The shortcut drops nothing exactly when it passes over no line that could match. */
  lemma {:induction false} ShortcutAgreesExactly(reader: Reader, lines: seq<string>, filter: Filter)
    ensures
      Matching(reader, LookedInto(lines, Needles(filter)), filter) == Matching(reader, lines, filter)
      <==> forall i | 0 <= i < |lines| :: ShortcutIsSafe(reader, filter, lines[i])
    ensures |Matching(reader, LookedInto(lines, Needles(filter)), filter)| <= |Matching(reader, lines, filter)|
  {
    hide ShortcutIsSafe, OneMatch, HoldsAll, Needles, Stripped;
    if lines == [] {
    } else {
      var rest, last := lines[..|lines| - 1], lines[|lines| - 1];
      ShortcutAgreesExactly(reader, rest, filter);
      var kept := LookedInto(rest, Needles(filter));
      MatchingOfMore(reader, kept, last, filter);
      MatchingOfMore(reader, rest, last, filter);
      assert lines == rest + [last];
      assert kept + [] == kept && Matching(reader, rest, filter) + [] == Matching(reader, rest, filter);
      OneLineSafe(reader, last, filter);
      var found := if HoldsAll(Stripped(last), Needles(filter)) then OneMatch(reader, last, filter) else [];
      Apart(Matching(reader, kept, filter), found, Matching(reader, rest, filter), OneMatch(reader, last, filter));
      assert forall i | 0 <= i < |rest| :: lines[i] == rest[i];
    }
  }

  lemma Apart<T>(a: seq<T>, b: seq<T>, c: seq<T>, d: seq<T>)
    requires |a| <= |c| && |b| <= |d|
    ensures a + b == c + d <==> a == c && b == d
  {
    if a + b == c + d {
      assert a == (a + b)[..|a|] && c == (c + d)[..|c|];
      assert b == (a + b)[|a|..] && d == (c + d)[|c|..];
    }
  }

  lemma OneLineSafe(reader: Reader, line: string, filter: Filter)
    ensures ShortcutIsSafe(reader, filter, line) <==> OneMatch(reader, line, filter) == [] || HoldsAll(Stripped(line), Needles(filter))
  {
  }

  function OneMatch(reader: Reader, line: string, filter: Filter): seq<Event> {
    var event := reader(Stripped(line));
    if Stripped(line) != "" && event.Some? && Matches(filter, event.value) then [event.value] else []
  }

  lemma MatchingOfMore(reader: Reader, lines: seq<string>, line: string, filter: Filter)
    ensures Matching(reader, lines + [line], filter) == Matching(reader, lines, filter) + OneMatch(reader, line, filter)
  {
  }

  // ---- Which logs the shortcut is exact on -------------------------------------------------------------------------

  /** The field, if it is one the shortcut looks for, stands in the line as it is. */
  predicate ShowsField(line: string, field: Option<string>) {
    Wanted(field) && VerbatimInJson(field.value) ==> Holds(line, field.value)
  }

  /** Each field a filter can ask for stands in the line unescaped. */
  predicate ShowsFields(reader: Reader, line: string) {
    var event := reader(Stripped(line));
    Stripped(line) != "" && event.Some? ==>
      && ShowsField(Stripped(line), event.value.sessionId)
      && ShowsField(Stripped(line), Some(event.value.eventType))
      && ShowsField(Stripped(line), Some(event.value.operator.id))
  }

  const NO_FILTER := Filter(None, None, None)

  lemma ShownFieldsAreSafe(reader: Reader, filter: Filter, line: string)
    requires ShowsFields(reader, line)
    ensures ShortcutIsSafe(reader, filter, line)
  {
    hide Holds, VerbatimInJson, Stripped;
  }

  /** A field that is written otherwise is missed by the filter that asks for it. */
  lemma HiddenFieldIsUnsafe(reader: Reader, line: string)
    requires !ShowsFields(reader, line)
    ensures exists filter :: !ShortcutIsSafe(reader, filter, line)
  {
    hide Holds, VerbatimInJson, Stripped;
    var event := reader(Stripped(line)).value;
    var filter :=
      if !ShowsField(Stripped(line), event.sessionId) then NO_FILTER.(sessionId := event.sessionId)
      else if !ShowsField(Stripped(line), Some(event.eventType)) then NO_FILTER.(eventType := Some(event.eventType))
      else NO_FILTER.(operatorId := Some(event.operator.id));
    assert Matches(filter, event) && |Needles(filter)| == 1 && !Holds(Stripped(line), Needles(filter)[0]);
    assert !ShortcutIsSafe(reader, filter, line);
  }

  lemma {:induction false} ReversedTwice<T>(xs: seq<T>)
    ensures Reversed(Reversed(xs)) == xs
  {
    if xs == [] {
    } else {
      var rest, last := xs[..|xs| - 1], xs[|xs| - 1];
      ReversedTwice(rest);
      ReversedSplits([last], Reversed(rest));
      assert Reversed(xs) == [last] + Reversed(rest) && Reversed([last]) == [last];
    }
  }

  /** The listings agree at every limit only if the matches do. */
  lemma SameListingsSameMatches(reader: Reader, a: seq<string>, b: seq<string>, filter: Filter)
    requires forall limit :: Listing(reader, a, limit, filter) == Listing(reader, b, limit, filter)
    ensures Matching(reader, a, filter) == Matching(reader, b, filter)
  {
    var m, n := Matching(reader, a, filter), Matching(reader, b, filter);
    assert Listing(reader, a, |m| + |n| + 1, filter) == Listing(reader, b, |m| + |n| + 1, filter);
    ReversedTwice(m);
    ReversedTwice(n);
  }

  ghost predicate ListsAll(reader: Reader, lines: seq<string>, filter: Filter) {
    forall limit :: Listing(reader, LookedInto(lines, Needles(filter)), limit, filter) == Listing(reader, lines, limit, filter)
  }

  /** The shortcut never misses a match, whatever is asked for, exactly on the logs whose lines all show the
      three fields unescaped. */
  lemma ShortcutIsExactOn(reader: Reader, lines: seq<string>)
    ensures (forall filter :: ListsAll(reader, lines, filter)) <==> forall i | 0 <= i < |lines| :: ShowsFields(reader, lines[i])
  {
    hide ShowsFields, ShortcutIsSafe, Matching, LookedInto, Needles;
    if forall i | 0 <= i < |lines| :: ShowsFields(reader, lines[i]) {
      forall filter ensures ListsAll(reader, lines, filter) {
        forall i | 0 <= i < |lines| ensures ShortcutIsSafe(reader, filter, lines[i]) {
          ShownFieldsAreSafe(reader, filter, lines[i]);
        }
        ShortcutAgreesExactly(reader, lines, filter);
      }
    } else {
      var i :| 0 <= i < |lines| && !ShowsFields(reader, lines[i]);
      HiddenFieldIsUnsafe(reader, lines[i]);
      var filter :| !ShortcutIsSafe(reader, filter, lines[i]);
      ShortcutAgreesExactly(reader, lines, filter);
      if ListsAll(reader, lines, filter) {
        SameListingsSameMatches(reader, LookedInto(lines, Needles(filter)), lines, filter);
      }
    }
  }

  /** Plain filtering lists the event of a line that does not show its session, and the shortcut passes over it. */
  lemma HiddenLineIsMissed(reader: Reader, line: string, event: Event, value: string)
    requires Stripped(line) != "" && reader(Stripped(line)) == Some(event) && event.sessionId == Some(value)
    requires value != "" && VerbatimInJson(value) && !Holds(Stripped(line), value)
    ensures
      var filter := NO_FILTER.(sessionId := Some(value));
      && Listing(reader, [line], 1, filter) == [event]
      && Listing(reader, LookedInto([line], Needles(filter)), 1, filter) == []
  {
    hide Stripped, Holds, VerbatimInJson, HoldsAll;
    var filter := NO_FILTER.(sessionId := Some(value));
    assert Needles(filter) == [value];
    MatchingOfMore(reader, [], line, filter);
    assert [] + [line] == [line];
    PassesOver(line, value);
  }

  lemma PassesOver(line: string, value: string)
    requires !Holds(Stripped(line), value)
    ensures LookedInto([line], [value]) == []
  {
    hide Stripped, Holds;
    assert !Holds(Stripped(line), [value][0]);
    assert [line][..0] == [];
  }

  const EDITED_EVENT :=
    Event("1", "2", "e", "s", None, Some("Q"), None, None, Operator("o", None, "anonymous", None), "{}")

  /** What the log writes for that event, but with the session's Q as an escape. */
  function EditedPieces(): (pieces: seq<string>)
    ensures |pieces| == 27 && pieces[0] == "{\"id\":" && pieces[26] == "}"
  {
    Pieces(EDITED_EVENT)[11 := "\"\\u0051\""]
  }

  const EDITED := Joined(EditedPieces())

  /** The log's own line of that event, key by key. */
  lemma ExampleLine()
    ensures Pieces(EDITED_EVENT) ==
            [ "{\"id\":", "\"1\"", ",\"timestamp\":", "\"2\"", ",\"event_type\":", "\"e\"", ",\"status\":", "\"s\"",
              ",\"action\":", "null", ",\"session_id\":", "\"Q\"", ",\"approval_id\":", "null", ",\"job_id\":", "null",
              ",\"operator\":{\"id\":", "\"o\"", ",\"name\":", "null", ",\"source\":", "\"anonymous\"",
              ",\"asserted_id\":", "null", "},\"details\":", "{}", "}" ]
  {
    hide EscapedAll, Quoted;
    ExampleValues();
  }

  lemma ExampleValues()
    ensures Quoted("1") == "\"1\"" && Quoted("2") == "\"2\"" && Quoted("e") == "\"e\"" && Quoted("s") == "\"s\""
    ensures Quoted("Q") == "\"Q\"" && Quoted("o") == "\"o\"" && Quoted("anonymous") == "\"anonymous\""
  {
    hide EscapedAll;
    VerbatimIsUnescaped("1");
    VerbatimIsUnescaped("2");
    VerbatimIsUnescaped("e");
    VerbatimIsUnescaped("s");
    VerbatimIsUnescaped("Q");
    VerbatimIsUnescaped("o");
    VerbatimIsUnescaped("anonymous");
  }

  /** A line the validator accepts, with a session that stands nowhere in it as it is. */
  lemma EditedLineIsMissed(reader: Reader)
    requires reader(EDITED) == Some(EDITED_EVENT)
    ensures
      var filter := NO_FILTER.(sessionId := Some("Q"));
      && Listing(reader, [EDITED], 1, filter) == [EDITED_EVENT]
      && Listing(reader, LookedInto([EDITED], Needles(filter)), 1, filter) == []
  {
    hide Listing, LookedInto, Needles, Stripped, Holds, Joined, EditedPieces;
    JoinedIsStripped(EditedPieces());
    NoQInPieces();
    JoinedWithout(EditedPieces(), 'Q');
    WithoutIt(EDITED, 'Q');
    HiddenLineIsMissed(reader, EDITED, EDITED_EVENT, "Q");
  }

  lemma QuotedWithout(value: string, c: char)
    requires VerbatimInJson(value) && c !in value && c != '"'
    ensures c !in Quoted(value)
  {
    VerbatimIsUnescaped(value);
  }

  // Keys and values take turns in a line.
  lemma NoQInFirstKeys()
    ensures forall k | 0 <= k <= 6 :: 'Q' !in EditedPieces()[2 * k]
  {
    hide Quoted, OrNull;
  }

  lemma NoQInLastKeys()
    ensures forall k | 7 <= k <= 12 :: 'Q' !in EditedPieces()[2 * k]
  {
    hide Quoted, OrNull;
  }

  lemma NoQInFirstValues()
    ensures forall k | 0 <= k <= 5 :: 'Q' !in EditedPieces()[2 * k + 1]
  {
    hide EscapedAll, Quoted;
    QuotedWithout("1", 'Q');
    QuotedWithout("2", 'Q');
    QuotedWithout("e", 'Q');
    QuotedWithout("s", 'Q');
  }

  lemma NoQInLastValues()
    ensures forall k | 6 <= k <= 12 :: 'Q' !in EditedPieces()[2 * k + 1]
  {
    hide EscapedAll, Quoted;
    QuotedWithout("o", 'Q');
    QuotedWithout("anonymous", 'Q');
  }

  lemma NoQInPieces()
    ensures forall i | 0 <= i < |EditedPieces()| :: 'Q' !in EditedPieces()[i]
  {
    hide EditedPieces;
    NoQInFirstKeys();
    NoQInLastKeys();
    NoQInFirstValues();
    NoQInLastValues();
    forall i | 0 <= i < 27 ensures 'Q' !in EditedPieces()[i] {
      var k := i / 2;
      if i == 26 {
      } else if i == 2 * k {
        assert 'Q' !in EditedPieces()[2 * k];
      } else {
        assert i == 2 * k + 1 && 'Q' !in EditedPieces()[2 * k + 1];
      }
    }
  }

  /** Text without a character holds it nowhere. */
  lemma WithoutIt(text: string, c: char)
    requires c !in text
    ensures !Holds(text, [c])
  {
    forall i | 0 <= i <= |text| ensures !IsAt(text, [c], i) {
      assert i < |text| ==> text[i..i + 1][0] == text[i];
    }
  }

  lemma {:induction false} JoinedWithout(pieces: seq<string>, c: char)
    requires forall i | 0 <= i < |pieces| :: c !in pieces[i]
    ensures c !in Joined(pieces)
  {
    if pieces == [] {
    } else {
      JoinedWithout(pieces[1..], c);
    }
  }

  lemma {:induction false} JoinedEnds(pieces: seq<string>, last: string)
    requires last != ""
    ensures Joined(pieces + [last]) != ""
    ensures Joined(pieces + [last])[|Joined(pieces + [last])| - 1] == last[|last| - 1]
  {
    var all := pieces + [last];
    if pieces == [] {
      assert Joined(all) == last + Joined([]);
    } else {
      JoinedEnds(pieces[1..], last);
      assert all[1..] == pieces[1..] + [last];
    }
  }

  lemma NoSpaceAround(text: string)
    requires text != "" && !IsSpace(text[0]) && !IsSpace(text[|text| - 1])
    ensures Stripped(text) == text
  {
  }

  /** A line that begins and ends as an object does has no space around it to strip. */
  lemma JoinedIsStripped(pieces: seq<string>)
    requires |pieces| > 1 && pieces[0] == "{\"id\":" && pieces[|pieces| - 1] == "}"
    ensures Stripped(Joined(pieces)) == Joined(pieces) != ""
  {
    hide Stripped, Joined;
    JoinedBegins(pieces);
    JoinedEnds(pieces[..|pieces| - 1], "}");
    assert pieces == pieces[..|pieces| - 1] + ["}"];
    NoSpaceAround(Joined(pieces));
  }

  lemma JoinedBegins(pieces: seq<string>)
    requires pieces != [] && pieces[0] != ""
    ensures Joined(pieces) != "" && Joined(pieces)[0] == pieces[0][0]
  {
  }

  /** A listing is of what was asked for: each event in it was read from a line and has every value the filter gives,
      and with room for them all each such event is in it. An empty value asks for nothing. */
  lemma ListingIsWhatWasAsked(reader: Reader, lines: seq<string>, limit: int, filter: Filter, event: Event)
    ensures
      var asked :=
        && (exists i | 0 <= i < |lines| :: Stripped(lines[i]) != "" && reader(Stripped(lines[i])) == Some(event))
        && (filter.sessionId.Some? && filter.sessionId.value != "" ==> event.sessionId == filter.sessionId)
        && (filter.eventType.Some? && filter.eventType.value != "" ==> event.eventType == filter.eventType.value)
        && (filter.operatorId.Some? && filter.operatorId.value != "" ==> event.operator.id == filter.operatorId.value);
      && (event in Listing(reader, lines, limit, filter) ==> asked)
      && (asked && limit >= |lines| ==> event in Listing(reader, lines, limit, filter))
    ensures |Listing(reader, lines, limit, filter)| <= if limit < 0 then 0 else limit
  {
    hide Stripped, Matches, Reversed, Matching;
    MatchingIsOfLines(reader, lines, filter, event);
    InReversed(Matching(reader, lines, filter), event);
    MatchesMeans(filter, event);
  }

  lemma MatchesMeans(filter: Filter, event: Event)
    ensures Matches(filter, event) <==>
            && (filter.sessionId.Some? && filter.sessionId.value != "" ==> event.sessionId == filter.sessionId)
            && (filter.eventType.Some? && filter.eventType.value != "" ==> event.eventType == filter.eventType.value)
            && (filter.operatorId.Some? && filter.operatorId.value != "" ==> event.operator.id == filter.operatorId.value)
  {
  }

  lemma {:induction false} MatchingIsOfLines(reader: Reader, lines: seq<string>, filter: Filter, event: Event)
    ensures event in Matching(reader, lines, filter) <==>
            && Matches(filter, event)
            && exists i | 0 <= i < |lines| :: Stripped(lines[i]) != "" && reader(Stripped(lines[i])) == Some(event)
    ensures |Matching(reader, lines, filter)| <= |lines|
  {
    hide Stripped, Matches;
    if lines == [] {
    } else {
      var rest, last := lines[..|lines| - 1], lines[|lines| - 1];
      MatchingIsOfLines(reader, rest, filter, event);
      assert forall i | 0 <= i < |rest| :: rest[i] == lines[i];
      if i :| 0 <= i < |lines| && Stripped(lines[i]) != "" && reader(Stripped(lines[i])) == Some(event) {
        assert i < |rest| ==> rest[i] == lines[i];
      }
    }
  }

  lemma {:induction false} InReversed<T>(xs: seq<T>, x: T)
    ensures x in Reversed(xs) <==> x in xs
  {
    if xs == [] {
    } else {
      InReversed(xs[..|xs| - 1], x);
      assert xs == xs[..|xs| - 1] + [xs[|xs| - 1]];
    }
  }

  /** On a log as the store writes it, torn lines among them, the scan lists what plain filtering lists. */
  lemma ListingAgrees(reader: Reader, lines: seq<string>, limit: int, filter: Filter)
    requires forall line | line in lines :: AsWritten(reader, line)
    ensures Listing(reader, LookedInto(lines, Needles(filter)), limit, filter) == Listing(reader, lines, limit, filter)
  {
    hide AsWritten, ShortcutIsSafe, Matching, LookedInto;
    forall i | 0 <= i < |lines| ensures ShortcutIsSafe(reader, filter, lines[i]) {
      WrittenLinesAreSafe(reader, filter, lines[i]);
    }
    ShortcutAgreesExactly(reader, lines, filter);
  }

  // ---- The file -------------------------------------------------------------------------------------------------

  predicate OneLine(line: string) {
    '\n' !in line
  }

  function LineEnd(text: string): (n: nat)
    ensures n <= |text| && (forall i | 0 <= i < n :: text[i] != '\n') && (n < |text| ==> text[n] == '\n')
  {
    if text == "" || text[0] == '\n' then 0 else 1 + LineEnd(text[1..])
  }

  /** The lines of a text; what follows the last newline is one if it is not empty. */
  function Lines(text: string): seq<string> {
    if text == "" then []
    else
      var n := LineEnd(text);
      [text[..n]] + if n == |text| then [] else Lines(text[n + 1..])
  }

  /** Not torn: empty, or its last line ended. */
  predicate Whole(text: string) {
    text == "" || text[|text| - 1] == '\n'
  }

  function Unlines(lines: seq<string>): string {
    if lines == [] then "" else lines[0] + "\n" + Unlines(lines[1..])
  }

  lemma LineEndAt(line: string, rest: string)
    requires OneLine(line)
    ensures LineEnd(line + "\n" + rest) == |line|
  {
    var text := line + "\n" + rest;
    forall i | 0 <= i < |line| ensures text[i] != '\n' {
      assert text[i] == line[i] && line[i] in line;
    }
    assert text[|line|] == '\n';
  }

  lemma FirstLine(line: string, rest: string)
    requires OneLine(line)
    ensures Lines(line + "\n" + rest) == [line] + Lines(rest)
  {
    LineEndAt(line, rest);
    var text := line + "\n" + rest;
    assert text[..|line|] == line && text[|line| + 1..] == rest;
  }

  /** Appending to a whole log adds a line and changes none. */
  lemma {:induction false} LinesOfAppend(text: string, line: string)
    requires Whole(text) && OneLine(line)
    ensures Lines(text + line + "\n") == Lines(text) + [line] && Whole(text + line + "\n")
    decreases |text|
  {
    hide Lines, LineEnd;
    NoLines();
    if text == "" {
      FirstLine(line, "");
      assert text + line + "\n" == line + "\n" + "";
    } else {
      var first, rest := SplitFirst(text);
      LinesOfAppend(rest, line);
      FirstLine(first, rest);
      FirstLine(first, rest + line + "\n");
      assert text + line + "\n" == first + "\n" + (rest + line + "\n");
    }
  }

  /** Appending to a torn log runs the torn line and the new one together, and changes no other. */
  lemma {:induction false} LinesOfTornAppend(text: string, line: string)
    requires !Whole(text) && OneLine(line)
    ensures
      var lines := Lines(text);
      lines != [] && Lines(text + line + "\n") == lines[..|lines| - 1] + [lines[|lines| - 1] + line]
    ensures Whole(text + line + "\n")
    decreases |text|
  {
    hide Lines, LineEnd;
    var first, rest := TornParts(text);
    if rest == "" {
      JoinsOneLine(text, line);
      FirstLine(text + line, "");
      NoLines();
      assert text + line + "\n" == (text + line) + "\n" + "";
    } else {
      LinesOfTornAppend(rest, line);
      FirstLine(first, rest);
      FirstLine(first, rest + line + "\n");
      assert text + line + "\n" == first + "\n" + (rest + line + "\n");
    }
  }

  lemma TornParts(text: string) returns (first: string, rest: string)
    requires !Whole(text)
    ensures |rest| < |text|
    ensures
      if rest == "" then OneLine(text) && Lines(text) == [text]
      else text == first + "\n" + rest && OneLine(first) && !Whole(rest)
  {
    var n := LineEnd(text);
    if n == |text| {
      first, rest := text, "";
      assert text[..n] == text;
    } else {
      first, rest := text[..n], text[n + 1..];
    }
  }

  lemma JoinsOneLine(a: string, b: string)
    requires OneLine(a) && OneLine(b)
    ensures OneLine(a + b)
  {
  }

  lemma NoLines()
    ensures Lines("") == []
  {
  }

  lemma SplitFirst(text: string) returns (first: string, rest: string)
    requires text != "" && Whole(text)
    ensures text == first + "\n" + rest && OneLine(first) && Whole(rest) && |rest| < |text|
  {
    var n := LineEnd(text);
    first, rest := text[..n], text[n + 1..];
  }

  lemma {:induction false} LinesOfUnlines(lines: seq<string>)
    requires forall line | line in lines :: OneLine(line)
    ensures Lines(Unlines(lines)) == lines && Whole(Unlines(lines))
  {
    hide Lines, LineEnd, OneLine, Whole;
    if lines == [] {
      NoLines();
      UnlinesAreWhole(lines);
    } else {
      assert lines[0] in lines && forall line | line in lines[1..] :: line in lines;
      LinesOfUnlines(lines[1..]);
      FirstLine(lines[0], Unlines(lines[1..]));
      UnlinesAreWhole(lines);
    }
  }

  lemma {:induction false} UnlinesAreWhole(lines: seq<string>)
    ensures Whole(Unlines(lines))
  {
    if lines == [] {
    } else {
      UnlinesAreWhole(lines[1..]);
    }
  }

  lemma {:induction false} LinesAreLines(text: string)
    ensures forall line | line in Lines(text) :: OneLine(line)
    decreases |text|
  {
    if text == "" || LineEnd(text) == |text| {
    } else {
      LinesAreLines(text[LineEnd(text) + 1..]);
    }
  }

  function NotBlank(lines: seq<string>): seq<string> {
    if lines == [] then []
    else
      var last := lines[|lines| - 1];
      NotBlank(lines[..|lines| - 1]) + if Stripped(last) != "" then [last] else []
  }

  function Newest<T>(xs: seq<T>, count: nat): seq<T> {
    if |xs| <= count then xs else xs[|xs| - count..]
  }

  // The log's lines after an append: a torn one takes the new line onto its last.
  function Appended(lines: seq<string>, line: string, whole: bool): seq<string> {
    if whole || lines == [] then lines + [line] else lines[..|lines| - 1] + [lines[|lines| - 1] + line]
  }

  // The log's lines after a trim: blank ones go, and the oldest past the cap.
  function Trimmed(lines: seq<string>, maxEvents: nat): seq<string> {
    if maxEvents == 0 || |NotBlank(lines)| <= maxEvents then lines else Newest(NotBlank(lines), maxEvents)
  }

  class FileAuditStore {
    const reader: Reader
    const maxEvents: nat
    const trimInterval: nat
    // The log's text; a file that does not exist yet has none.
    var text: string
    var writesSinceTrim: nat

    constructor (reader: Reader, maxEvents: int, trimInterval: int)
      ensures this.reader == reader && text == "" && writesSinceTrim == 0
      ensures this.maxEvents == (if maxEvents < 0 then 0 else maxEvents)
      ensures this.trimInterval == (if trimInterval < 1 then 1 else trimInterval)
    {
      this.reader, text, writesSinceTrim := reader, "", 0;
      this.maxEvents := if maxEvents < 0 then 0 else maxEvents;
      this.trimInterval := if trimInterval < 1 then 1 else trimInterval;
    }

    method TrimLocked()
      modifies this`text
      ensures Lines(text) == Trimmed(Lines(old(text)), maxEvents)
      ensures Whole(old(text)) ==> Whole(text)
    {
      if maxEvents == 0 {
        return;
      }
      var lines := NotBlank(Lines(text));
      if |lines| <= maxEvents {
        return;
      }
      LinesAreLines(text);
      NotBlankAreLines(Lines(text));
      LinesOfUnlines(Newest(lines, maxEvents));
      text := Unlines(Newest(lines, maxEvents));
    }

    method AppendEvent(event: Event)
      requires OneLine(event.details)
      modifies this
      ensures Whole(text) &&
              var lines := Appended(Lines(old(text)), Encoded(event), Whole(old(text)));
              Lines(text) == if old(writesSinceTrim) + 1 >= trimInterval then Trimmed(lines, maxEvents) else lines
      ensures writesSinceTrim == if maxEvents > 0 && old(writesSinceTrim) + 1 >= trimInterval then 0 else old(writesSinceTrim) + 1
    {
      EncodedIsOneLine(event);
      if Whole(text) {
        LinesOfAppend(text, Encoded(event));
      } else {
        LinesOfTornAppend(text, Encoded(event));
      }
      text := text + Encoded(event) + "\n";
      writesSinceTrim := writesSinceTrim + 1;
      if maxEvents > 0 && writesSinceTrim >= trimInterval {
        TrimLocked();
        writesSinceTrim := 0;
      }
    }

    method ListEvents(limit: int, filter: Filter) returns (events: seq<Event>, malformed: nat)
      ensures events == Listing(reader, LookedInto(Lines(text), Needles(filter)), limit, filter)
      ensures malformed <= |Lines(text)|
    {
      hide Matching, LookedInto, Stripped, HoldsAll, Needles, StillToCome, Reversed, Lines, Matches, Wanted, AtMost;
      events, malformed := [], 0;
      if limit <= 0 {
        return;
      }
      var needles := Needles(filter);
      var lines := Lines(text);
      ghost var all := Reversed(Matching(reader, LookedInto(lines, needles), filter));
      var i := |lines|;
      StartOfScan(reader, lines, needles, filter);
      while i > 0
        invariant 0 <= i <= |lines| && malformed <= |lines| - i
        invariant |events| < limit
        invariant all == events + StillToCome(reader, lines, needles, filter, i)
      {
        i := i - 1;
        var raw := Stripped(lines[i]);
        NextLine(reader, lines, needles, filter, i);
        if raw != "" && HoldsAll(raw, needles) {
          var event := reader(raw);
          if event.Some? {
            MatchesUnless(filter, event.value);
          }
          if event.None? {
            malformed := malformed + 1;
          } else if (Wanted(filter.sessionId) && event.value.sessionId != filter.sessionId)
                 || (Wanted(filter.eventType) && event.value.eventType != filter.eventType.value)
                 || (Wanted(filter.operatorId) && event.value.operator.id != filter.operatorId.value) {
          } else {
            ghost var rest := StillToCome(reader, lines, needles, filter, i);
            OneMore(events, event.value, rest);
            events := events + [event.value];
            if |events| >= limit {
              EnoughListed(events, rest, limit);
              return;
            }
          }
        }
      }
      EnoughListed(events, [], limit);
    }
  }

  lemma OneMore<T>(xs: seq<T>, x: T, rest: seq<T>)
    ensures xs + ([x] + rest) == (xs + [x]) + rest
    ensures xs + ([] + rest) == xs + rest
  {
  }

  lemma EnoughListed<T>(xs: seq<T>, rest: seq<T>, limit: nat)
    requires |xs| == limit || (|xs| < limit && rest == [])
    ensures AtMost(xs + rest, limit) == xs
  {
  }

  lemma MatchesUnless(filter: Filter, event: Event)
    ensures !Matches(filter, event) <==>
            || (Wanted(filter.sessionId) && event.sessionId != filter.sessionId)
            || (Wanted(filter.eventType) && event.eventType != filter.eventType.value)
            || (Wanted(filter.operatorId) && event.operator.id != filter.operatorId.value)
    ensures Wanted(filter.eventType) ==> filter.eventType.Some?
    ensures Wanted(filter.operatorId) ==> filter.operatorId.Some?
  {
  }

  /** The matches on the lines not scanned yet, newest first. */
  function StillToCome(reader: Reader, lines: seq<string>, needles: seq<string>, filter: Filter, i: nat): seq<Event>
    requires i <= |lines|
  {
    Reversed(Matching(reader, LookedInto(lines[..i], needles), filter))
  }

  lemma StartOfScan(reader: Reader, lines: seq<string>, needles: seq<string>, filter: Filter)
    ensures StillToCome(reader, lines, needles, filter, |lines|) == Reversed(Matching(reader, LookedInto(lines, needles), filter))
    ensures StillToCome(reader, lines, needles, filter, 0) == []
  {
    assert lines[..|lines|] == lines;
  }

  lemma ReversedOfMore<T>(xs: seq<T>, x: T)
    ensures Reversed(xs + [x]) == [x] + Reversed(xs)
  {
  }

  lemma NextLine(reader: Reader, lines: seq<string>, needles: seq<string>, filter: Filter, i: nat)
    requires i < |lines|
    ensures
      StillToCome(reader, lines, needles, filter, i + 1) ==
        (if HoldsAll(Stripped(lines[i]), needles) then OneMatch(reader, lines[i], filter) else [])
        + StillToCome(reader, lines, needles, filter, i)
  {
    hide Matching;
    assert lines[..i + 1][..i] == lines[..i];
    var before := LookedInto(lines[..i], needles);
    if HoldsAll(Stripped(lines[i]), needles) {
      MatchingOfMore(reader, before, lines[i], filter);
      var matched := Matching(reader, before, filter);
      if OneMatch(reader, lines[i], filter) != [] {
        ReversedOfMore(matched, OneMatch(reader, lines[i], filter)[0]);
      } else {
        assert matched + [] == matched;
      }
    } else {
      assert before + [] == before;
    }
  }

  // ---- Writing and trimming ----------------------------------------------------------------------------------------

  lemma {:induction false} EscapedIsOneLine(value: string)
    ensures OneLine(EscapedAll(value))
  {
    if value == "" {
    } else {
      EscapedIsOneLine(value[1..]);
    }
  }

  lemma QuotedIsOneLine(value: string)
    ensures OneLine(Quoted(value))
  {
    EscapedIsOneLine(value);
  }

  lemma OrNullIsOneLine(value: Option<string>)
    ensures OneLine(OrNull(value))
  {
    if value.Some? {
      QuotedIsOneLine(value.value);
    }
  }

  /** Whatever the fields hold, an event takes one line. */
  lemma EncodedIsOneLine(event: Event)
    requires OneLine(event.details)
    ensures OneLine(Encoded(event))
  {
    hide Joined, EscapedAll, Quoted, OrNull;
    forall value ensures OneLine(Quoted(value)) {
      QuotedIsOneLine(value);
    }
    forall value ensures OneLine(OrNull(value)) {
      OrNullIsOneLine(value);
    }
    JoinedWithout(Pieces(event), '\n');
  }

  lemma {:induction false} NotBlankAreLines(lines: seq<string>)
    requires forall line | line in lines :: OneLine(line)
    ensures forall line | line in NotBlank(lines) :: OneLine(line)
  {
    if lines == [] {
    } else {
      NotBlankAreLines(lines[..|lines| - 1]);
    }
  }

  lemma {:induction false} BlankLinesNeverMatch(reader: Reader, lines: seq<string>, filter: Filter)
    ensures Matching(reader, NotBlank(lines), filter) == Matching(reader, lines, filter)
  {
    if lines == [] {
    } else {
      var rest, last := lines[..|lines| - 1], lines[|lines| - 1];
      BlankLinesNeverMatch(reader, rest, filter);
      MatchingOfMore(reader, NotBlank(rest), last, filter);
      assert NotBlank(rest) + [] == NotBlank(rest);
      assert Matching(reader, rest, filter) + [] == Matching(reader, rest, filter);
    }
  }

  lemma {:induction false} MatchingSplits(reader: Reader, a: seq<string>, b: seq<string>, filter: Filter)
    ensures Matching(reader, a + b, filter) == Matching(reader, a, filter) + Matching(reader, b, filter)
  {
    hide OneMatch, Stripped, Matches;
    if b == [] {
      assert a + b == a;
    } else {
      var rest, last := b[..|b| - 1], b[|b| - 1];
      MatchingSplits(reader, a, rest, filter);
      MatchingOfMore(reader, a + rest, last, filter);
      MatchingOfMore(reader, rest, last, filter);
      assert a + b == a + rest + [last] && b == rest + [last];
    }
  }

  lemma {:induction false} ReversedSplits<T>(a: seq<T>, b: seq<T>)
    ensures Reversed(a + b) == Reversed(b) + Reversed(a)
  {
    if b == [] {
      assert a + b == a;
    } else {
      var rest, last := b[..|b| - 1], b[|b| - 1];
      ReversedSplits(a, rest);
      ReversedOfMore(a + rest, last);
      ReversedOfMore(rest, last);
      assert a + b == a + rest + [last] && b == rest + [last];
    }
  }

  /** A trim takes only the oldest: what is listed after it is the beginning of what was listed before. */
  lemma TrimDropsOnlyTheOldest(reader: Reader, lines: seq<string>, maxEvents: nat, limit: int, filter: Filter)
    ensures Listing(reader, Trimmed(lines, maxEvents), limit, filter) <= Listing(reader, lines, limit, filter)
    ensures maxEvents > 0 ==> |NotBlank(Trimmed(lines, maxEvents))| <= maxEvents
    ensures maxEvents > 0 && |NotBlank(lines)| > maxEvents ==>
              && |Trimmed(lines, maxEvents)| == maxEvents
              && forall i | 0 <= i < maxEvents ::
                   && Trimmed(lines, maxEvents)[i] == NotBlank(lines)[|NotBlank(lines)| - maxEvents + i]
                   && Stripped(Trimmed(lines, maxEvents)[i]) != ""
    ensures maxEvents == 0 || |NotBlank(lines)| <= maxEvents ==> Trimmed(lines, maxEvents) == lines
  {
    hide NotBlank, Matching, Reversed, Stripped;
    BlankLinesNeverMatch(reader, lines, filter);
    NoneBlank(lines);
    var kept := NotBlank(lines);
    if maxEvents > 0 && |kept| > maxEvents {
      var a, b := kept[..|kept| - maxEvents], kept[|kept| - maxEvents..];
      assert kept == a + b;
      MatchingSplits(reader, a, b, filter);
      ReversedSplits(Matching(reader, a, filter), Matching(reader, b, filter));
      NotBlankStays(b);
    }
  }

  lemma {:induction false} NoneBlank(lines: seq<string>)
    ensures forall i | 0 <= i < |NotBlank(lines)| :: Stripped(NotBlank(lines)[i]) != ""
  {
    hide Stripped;
    if lines == [] {
    } else {
      NoneBlank(lines[..|lines| - 1]);
    }
  }

  lemma {:induction false} NotBlankStays(lines: seq<string>)
    ensures |NotBlank(lines)| <= |lines|
  {
    if lines == [] {
    } else {
      NotBlankStays(lines[..|lines| - 1]);
    }
  }

  /** An event just written is the first listed, if the filter lets it through, trimmed or not. */
  lemma NewestIsListedFirst(reader: Reader, lines: seq<string>, event: Event, maxEvents: nat, limit: int, filter: Filter)
    requires reader(Encoded(event)) == Some(event)
    requires Matches(filter, event) && limit > 0
    ensures
      var after := lines + [Encoded(event)];
      && Listing(reader, after, limit, filter) != [] && Listing(reader, after, limit, filter)[0] == event
      && Listing(reader, Trimmed(after, maxEvents), limit, filter) != []
      && Listing(reader, Trimmed(after, maxEvents), limit, filter)[0] == event
  {
    hide Stripped, Encoded, Matches, NotBlank, Matching, Reversed;
    var line := Encoded(event);
    var after := lines + [line];
    EncodedIsStripped(event);
    MatchingOfMore(reader, lines, line, filter);
    ReversedOfMore(Matching(reader, lines, filter), event);
    var kept := NotBlank(after);
    NotBlankOfMore(lines, line);
    if maxEvents > 0 && |kept| > maxEvents {
      var rest := kept[|kept| - maxEvents..|kept| - 1];
      assert Newest(kept, maxEvents) == rest + [line];
      MatchingOfMore(reader, rest, line, filter);
      ReversedOfMore(Matching(reader, rest, filter), event);
    }
  }

  lemma NotBlankOfMore(lines: seq<string>, line: string)
    requires Stripped(line) != ""
    ensures NotBlank(lines + [line]) == NotBlank(lines) + [line]
  {
  }

  /** So neither has a written line. */
  lemma EncodedIsStripped(event: Event)
    ensures Stripped(Encoded(event)) == Encoded(event) != ""
  {
    hide Joined, Stripped;
    JoinedIsStripped(Pieces(event));
  }
}

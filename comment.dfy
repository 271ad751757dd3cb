/**
 * The documentation-comment section parser of standardese (src/comment.cpp):
 * the process-wide section configuration (command character, command tokens,
 * section headings) and the character scanner that splits one raw comment
 * into an ordered list of (kind, heading, body) sections.
 */
module Comment {

  datatype Option<T> = None | Some(value: T)

  // ---------------------------------------------------------------------------
  // Section kinds and the default configuration
  // ---------------------------------------------------------------------------

  /** The section kinds, in the order of the heading table, and Invalid, which
      is what looking up an unknown command token yields. */
  datatype SectionType =
    | Brief | Details | Requires | Effects | Synchronization | Postconditions
    | Returns | Throws | Complexity | Remarks | ErrorConditions | Notes
    | Invalid

  /** Number of entries of the heading table (`section_type::count`). */
  const SectionCount: nat := 12

  /** Position of a kind in the heading table. */
  function Index(t: SectionType): (k: nat)
    requires t != Invalid
    ensures k < SectionCount
  {
    match t
    case Brief => 0
    case Details => 1
    case Requires => 2
    case Effects => 3
    case Synchronization => 4
    case Postconditions => 5
    case Returns => 6
    case Throws => 7
    case Complexity => 8
    case Remarks => 9
    case ErrorConditions => 10
    case Notes => 11
  }

  /** The identifier of a kind, which is also its default command token. */
  function Identifier(t: SectionType): string
    requires t != Invalid
  {
    match t
    case Brief => "brief"
    case Details => "details"
    case Requires => "requires"
    case Effects => "effects"
    case Synchronization => "synchronization"
    case Postconditions => "postconditions"
    case Returns => "returns"
    case Throws => "throws"
    case Complexity => "complexity"
    case Remarks => "remarks"
    case ErrorConditions => "error_conditions"
    case Notes => "notes"
  }

  /** The heading a kind is given by default. */
  function DefaultHeading(t: SectionType): string
    requires t != Invalid
  {
    match t
    case Brief => ""
    case Details => ""
    case Requires => "Requires"
    case Effects => "Effects"
    case Synchronization => "Synchronization"
    case Postconditions => "Postconditions"
    case Returns => "Returns"
    case Throws => "Throws"
    case Complexity => "Complexity"
    case Remarks => "Remarks"
    case ErrorConditions => "Error conditions"
    case Notes => "Notes"
  }

  /** The default heading table, indexed by Index. */
  function DefaultNames(): (names: seq<string>)
    ensures |names| == SectionCount
  {
    [DefaultHeading(Brief), DefaultHeading(Details), DefaultHeading(Requires),
     DefaultHeading(Effects), DefaultHeading(Synchronization), DefaultHeading(Postconditions),
     DefaultHeading(Returns), DefaultHeading(Throws), DefaultHeading(Complexity),
     DefaultHeading(Remarks), DefaultHeading(ErrorConditions), DefaultHeading(Notes)]
  }

  /** The default heading table holds each kind's default heading at the
      kind's index. */
  lemma DefaultNamesIndexed()
    ensures forall t :: t != Invalid ==> DefaultNames()[Index(t)] == DefaultHeading(t)
  {
    var names := DefaultNames();
    forall t | t != Invalid
      ensures names[Index(t)] == DefaultHeading(t)
    {
    }
  }

  /** The default command table: every kind under its own identifier. */
  function DefaultCommands(): map<string, SectionType>
  {
    map[Identifier(Brief) := Brief, Identifier(Details) := Details,
        Identifier(Requires) := Requires, Identifier(Effects) := Effects,
        Identifier(Synchronization) := Synchronization,
        Identifier(Postconditions) := Postconditions, Identifier(Returns) := Returns,
        Identifier(Throws) := Throws, Identifier(Complexity) := Complexity,
        Identifier(Remarks) := Remarks, Identifier(ErrorConditions) := ErrorConditions,
        Identifier(Notes) := Notes]
  }

  /** Looks a command token up; Invalid when it is not a known command. */
  function ParseSectionName(commands: map<string, SectionType>, token: string): (k: SectionType)
    ensures token in commands ==> k == commands[token]
    ensures k != Invalid ==> token in commands
  {
    if token in commands then commands[token] else Invalid
  }

  /** By default each kind's identifier is a command token that resolves
      to that kind. */
  lemma DefaultCommandsResolve()
    ensures forall t :: t != Invalid ==> ParseSectionName(DefaultCommands(), Identifier(t)) == t
  {
    var m := DefaultCommands();
    forall t | t != Invalid
      ensures ParseSectionName(m, Identifier(t)) == t
    {
      assert Identifier(t) in m;
    }
  }

  /** The default command tokens are the identifiers and nothing else: each
      resolves to the real kind it identifies. */
  lemma DefaultCommandsAreIdentifiers()
    ensures forall token :: token in DefaultCommands() ==>
      DefaultCommands()[token] != Invalid && Identifier(DefaultCommands()[token]) == token
  {
    var m := DefaultCommands();
    forall token | token in m
      ensures m[token] != Invalid && Identifier(m[token]) == token
    {
    }
  }

  /** Only brief and details have an empty default heading; every other
      default heading starts with a capital letter. */
  lemma DefaultHeadings()
    ensures forall t :: t != Invalid ==>
      (DefaultNames()[Index(t)] == "" <==> t == Brief || t == Details)
    ensures forall t :: t != Invalid && t != Brief && t != Details ==>
      'A' <= DefaultNames()[Index(t)][0] <= 'Z'
  {
    DefaultNamesIndexed();
  }

  /** A snapshot of the configuration, as the scanner reads it. */
  datatype Settings = Settings(commandChar: char, commands: map<string, SectionType>, names: seq<string>)
  {
    predicate WellFormed() { |names| == SectionCount }

    /** The heading given to sections of kind t (`section_names[t]`). */
    function Heading(t: SectionType): string
      requires WellFormed() && t != Invalid
    {
      names[Index(t)]
    }
  }

  /** The configuration the program starts with, as a value. */
  function DefaultSettings(): (s: Settings)
    ensures s.WellFormed()
  {
    Settings('\\', DefaultCommands(), DefaultNames())
  }

  /** The failures the configuration setters report (`std::invalid_argument`). */
  datatype ConfigError = UnknownCommand(token: string) | CommandInUse(token: string)

  /** The process-wide section configuration: the command character, the map
      from command token to kind, and the heading table. */
  class SectionConfig {
    var commandChar: char
    var commands: map<string, SectionType>
    const names: array<string>

    ghost predicate Valid()
      reads this
    {
      names.Length == SectionCount
    }

    /** The configuration as a value. */
    function Snapshot(): (s: Settings)
      reads this, names
      requires Valid()
      ensures s.WellFormed()
    {
      Settings(commandChar, commands, names[..])
    }

    /** The configuration the program starts with. */
    constructor Default()
      ensures Valid() && fresh(names)
      ensures commandChar == '\\'
      ensures commands == DefaultCommands()
      ensures names[..] == DefaultNames()
      ensures Snapshot() == DefaultSettings()
    {
      var defaults := DefaultNames();
      commandChar := '\\';
      commands := DefaultCommands();
      names := new string[SectionCount](k requires 0 <= k < SectionCount => defaults[k]);
      new;
      assert names[..] == defaults;
    }

    /** Replaces the command character. */
    method SetCommandCharacter(c: char)
      requires Valid()
      modifies this
      ensures Valid()
      ensures commandChar == c
      ensures commands == old(commands)
    {
      commandChar := c;
    }

    /** Makes token resolve to t, whatever it resolved to before; every other
        token, including the other tokens of t, keeps its kind. */
    method SetSectionCommand(t: SectionType, token: string)
      requires Valid()
      modifies this
      ensures Valid()
      ensures commands == old(commands)[token := t]
      ensures ParseSectionName(commands, token) == t
      ensures forall other :: other != token ==>
        ParseSectionName(commands, other) == ParseSectionName(old(commands), other)
      ensures commandChar == old(commandChar)
    {
      commands := commands[token := t];
    }

    /** Renames the command token `from` to `to`. An unknown `from` fails and
        changes nothing; a `to` already in use fails too, but only after `from`
        has been removed, and `to` keeps the kind it had. */
    method RenameSectionCommand(from: string, to: string) returns (r: Option<ConfigError>)
      requires Valid()
      modifies this
      ensures Valid()
      ensures commandChar == old(commandChar)
      ensures from !in old(commands) ==>
        r == Some(UnknownCommand(from)) && commands == old(commands)
      ensures from in old(commands) && to != from && to in old(commands) ==>
        r == Some(CommandInUse(to)) && commands == old(commands) - {from}
      ensures from in old(commands) && (to == from || to !in old(commands)) ==>
        r == None && commands == (old(commands) - {from})[to := old(commands)[from]]
      ensures r == None ==>
        ParseSectionName(commands, to) == ParseSectionName(old(commands), from) &&
        (from != to ==> ParseSectionName(commands, from) == Invalid)
      ensures forall other :: other != from && other != to ==>
        ParseSectionName(commands, other) == ParseSectionName(old(commands), other)
      ensures r == Some(CommandInUse(to)) ==>
        ParseSectionName(commands, to) == ParseSectionName(old(commands), to) &&
        ParseSectionName(commands, from) == Invalid
    {
      if from !in commands {
        return Some(UnknownCommand(from));
      }
      var t := commands[from];
      commands := commands - {from};
      if to in commands {
        return Some(CommandInUse(to));
      }
      commands := commands[to := t];
      r := None;
    }

    /** Sets the heading of kind t; every other kind keeps its heading. */
    method SetSectionName(t: SectionType, name: string)
      requires Valid() && t != Invalid
      modifies names
      ensures Valid()
      ensures names[..] == old(names[..])[Index(t) := name]
      ensures Snapshot().Heading(t) == name
      ensures forall u :: u != Invalid && u != t ==> Snapshot().Heading(u) == old(Snapshot().Heading(u))
    {
      names[Index(t)] := name;
      IndexInjective();
    }

    /** Sets the heading of the kind the command token resolves to; an unknown
        token fails and changes nothing. */
    method SetSectionNameOfCommand(token: string, name: string) returns (r: Option<ConfigError>)
      requires Valid()
      requires token in commands ==> commands[token] != Invalid
      modifies names
      ensures Valid()
      ensures token !in commands ==> r == Some(UnknownCommand(token)) && names[..] == old(names[..])
      ensures token in commands ==>
        r == None && names[..] == old(names[..])[Index(commands[token]) := name]
    {
      if token !in commands {
        return Some(UnknownCommand(token));
      }
      names[Index(commands[token])] := name;
      r := None;
    }
  }

  /** Distinct kinds have distinct rows in the heading table. */
  lemma IndexInjective()
    ensures forall t, u :: t != Invalid && u != Invalid && t != u ==> Index(t) != Index(u)
  {
  }

  // ---------------------------------------------------------------------------
  // The bounds-tolerant view of the raw comment
  // ---------------------------------------------------------------------------

  /** Size of the stream: one more than the raw text (`comment_stream::size`). */
  function StreamSize(raw: string): nat
  {
    |raw| + 1
  }

  /** Character i of the stream (`comment_stream::operator[]`): a newline at 0
      and at every index past the text, raw[i - 1] in between. */
  function StreamAt(raw: string, i: nat): char
  {
    if i == 0 || i >= StreamSize(raw) then '\n' else raw[i - 1]
  }

  /** The stream is the raw text behind one synthetic newline, and reads as
      newline everywhere past its end. */
  lemma StreamView(raw: string)
    ensures StreamSize(raw) == |raw| + 1
    ensures StreamAt(raw, 0) == '\n'
    ensures forall k :: 1 <= k <= |raw| ==> StreamAt(raw, k) == raw[k - 1]
    ensures forall k :: k >= |raw| + 1 ==> StreamAt(raw, k) == '\n'
  {
  }

  // ---------------------------------------------------------------------------
  // Trimming
  // ---------------------------------------------------------------------------

  /** The whitespace of `std::isspace` in the "C" locale. */
  predicate IsSpace(c: char)
  {
    c == ' ' || c == '\t' || c == '\n' || c == '\U{000B}' || c == '\U{000C}' || c == '\r'
  }

  predicate AllSpace(s: string)
  {
    forall k :: 0 <= k < |s| ==> IsSpace(s[k])
  }

  /** No leading and no trailing whitespace. */
  predicate IsTrimmed(s: string)
  {
    s == [] || (!IsSpace(s[0]) && !IsSpace(s[|s| - 1]))
  }

  /** Index of the first character of s from k on that is not whitespace,
      or |s| (the forward loop of `trim_whitespace`). */
  function SkipSpacesFrom(s: string, k: nat): (j: nat)
    requires k <= |s|
    decreases |s| - k
    ensures k <= j <= |s|
  {
    if k == |s| || !IsSpace(s[k]) then k else SkipSpacesFrom(s, k + 1)
  }

  /** Length of the leading run of whitespace. */
  function LeadingSpaces(s: string): (k: nat)
    ensures k <= |s|
  {
    SkipSpacesFrom(s, 0)
  }

  lemma {:induction false} SkipSpacesFromSpec(s: string, k: nat)
    requires k <= |s|
    ensures forall j :: k <= j < SkipSpacesFrom(s, k) ==> IsSpace(s[j])
    ensures SkipSpacesFrom(s, k) < |s| ==> !IsSpace(s[SkipSpacesFrom(s, k)])
    decreases |s| - k
  {
    if k < |s| && IsSpace(s[k]) {
      SkipSpacesFromSpec(s, k + 1);
    }
  }

  /** LeadingSpaces counts whitespace only, and stops at the first
      character that is not whitespace. */
  lemma LeadingSpacesSpec(s: string)
    ensures forall j :: 0 <= j < LeadingSpaces(s) ==> IsSpace(s[j])
    ensures LeadingSpaces(s) < |s| ==> !IsSpace(s[LeadingSpaces(s)])
  {
    SkipSpacesFromSpec(s, 0);
  }

  /** The end below e once the whitespace before it is cut off (the
      backward loop of `trim_whitespace`, stopped at the start of s). */
  function TrailingEndFrom(s: string, e: nat): (r: nat)
    requires e <= |s|
    ensures r <= e
  {
    if e == 0 || !IsSpace(s[e - 1]) then e else TrailingEndFrom(s, e - 1)
  }

  /** End of s once its trailing run of whitespace is cut off. */
  function TrailingEnd(s: string): (e: nat)
    ensures e <= |s|
  {
    TrailingEndFrom(s, |s|)
  }

  lemma {:induction false} TrailingEndFromSpec(s: string, e: nat)
    requires e <= |s|
    ensures forall j :: TrailingEndFrom(s, e) <= j < e ==> IsSpace(s[j])
    ensures TrailingEndFrom(s, e) > 0 ==> !IsSpace(s[TrailingEndFrom(s, e) - 1])
  {
    if e > 0 && IsSpace(s[e - 1]) {
      TrailingEndFromSpec(s, e - 1);
    }
  }

  /** TrailingEnd cuts off whitespace only, and keeps a last character that
      is not whitespace. */
  lemma TrailingEndSpec(s: string)
    ensures forall j :: TrailingEnd(s) <= j < |s| ==> IsSpace(s[j])
    ensures TrailingEnd(s) > 0 ==> !IsSpace(s[TrailingEnd(s) - 1])
  {
    TrailingEndFromSpec(s, |s|);
  }

  /** The characters s[a..b], one at a time; none when a >= b. */
  function Slice(s: string, a: nat, b: nat): string
    requires b <= |s|
    decreases b - a
  {
    if a >= b then [] else [s[a]] + Slice(s, a + 1, b)
  }

  lemma {:induction false} SliceSpec(s: string, a: nat, b: nat)
    requires a <= b <= |s|
    ensures Slice(s, a, b) == s[a..b]
    decreases b - a
  {
    if a < b {
      SliceSpec(s, a + 1, b);
      assert s[a..b] == [s[a]] + s[a + 1..b];
    }
  }

  /** s without its leading and trailing whitespace: the characters from
      where the forward scan stops to where the backward scan stops, none
      when the two scans cross. */
  function Trim(s: string): string
  {
    Slice(s, LeadingSpaces(s), TrailingEnd(s))
  }

  /** Trim keeps the slice between the leading and the trailing whitespace;
      the result has neither, and it is empty exactly when s is all
      whitespace. */
  lemma TrimSpec(s: string)
    ensures IsTrimmed(Trim(s))
    ensures Trim(s) == [] <==> AllSpace(s)
    ensures Trim(s) != [] ==>
      0 <= LeadingSpaces(s) < TrailingEnd(s) <= |s| && Trim(s) == s[LeadingSpaces(s)..TrailingEnd(s)]
  {
    var b, e := LeadingSpaces(s), TrailingEnd(s);
    LeadingSpacesSpec(s);
    TrailingEndSpec(s);
    if b == |s| {
      assert AllSpace(s);
      assert Trim(s) == [];
    } else {
      assert !IsSpace(s[b]);
      assert b < e;
      SliceSpec(s, b, e);
      var r := s[b..e];
      assert r[0] == s[b] && r[|r| - 1] == s[e - 1];
      assert Trim(s) == r;
    }
  }

  /** TrailingEnd is the only end with all-space tail and non-space last
      character. */
  lemma TrailingEndUnique(s: string, e: nat)
    requires e <= |s|
    requires forall j :: e <= j < |s| ==> IsSpace(s[j])
    requires e > 0 ==> !IsSpace(s[e - 1])
    ensures e == TrailingEnd(s)
  {
    TrailingEndSpec(s);
  }

  /** Trim keeps a contiguous slice of its input and drops only whitespace. */
  lemma TrimIsInnerSlice(s: string)
    ensures exists a, b :: (0 <= a <= b <= |s| && Trim(s) == s[a..b] &&
                            AllSpace(s[..a]) && AllSpace(s[b..]))
  {
    TrimSpec(s);
    if AllSpace(s) {
      assert Trim(s) == s[0..0] && AllSpace(s[..0]);
      assert s[0..] == s;
    } else {
      var a, b := LeadingSpaces(s), TrailingEnd(s);
      LeadingSpacesSpec(s);
      TrailingEndSpec(s);
      forall j | 0 <= j < a ensures IsSpace(s[..a][j]) {
        assert s[..a][j] == s[j];
      }
      forall j | 0 <= j < |s| - b ensures IsSpace(s[b..][j]) {
        assert s[b..][j] == s[b + j];
      }
    }
  }

  /** Every character Trim keeps comes from its input. */
  lemma TrimKeepsInputChars(s: string, c: char)
    requires c in Trim(s)
    ensures c in s
  {
    TrimIsInnerSlice(s);
    var a, b :| 0 <= a <= b <= |s| && Trim(s) == s[a..b];
    var k :| 0 <= k < |Trim(s)| && Trim(s)[k] == c;
    assert s[a + k] == c;
  }

  /** Trimming twice trims nothing more. */
  lemma TrimIdempotent(s: string)
    ensures Trim(Trim(s)) == Trim(s)
  {
    TrimSpec(s);
    var r := Trim(s);
    if r != [] {
      assert LeadingSpaces(r) == 0;
      assert TrailingEnd(r) == |r|;
      SliceSpec(r, 0, |r|);
    }
  }

  /** Removes the leading and trailing whitespace of s (`trim_whitespace`). */
  method TrimWhitespace(s: string) returns (r: string)
    ensures r == Trim(s)
  {
    var start := 0;
    while start < |s| && IsSpace(s[start])
      invariant start <= |s|
      invariant SkipSpacesFrom(s, start) == LeadingSpaces(s)
    {
      start := start + 1;
    }
    var end: nat := |s|;
    while end > 0 && IsSpace(s[end - 1])
      invariant end <= |s|
      invariant TrailingEndFrom(s, end) == TrailingEnd(s)
    {
      end := end - 1;
    }
    r := s;
    if end <= |r| {
      r := r[..end];
    }
    r := r[if start <= |r| then start else |r|..];
    if start <= end {
      SliceSpec(s, start, end);
    }
  }

  /** The back-scan of `trim_whitespace` as written: it reads s[end - 1] with
      no check that end > 0. The result is the last index read, which is -1,
      before the start of s, when every character of s is whitespace. */
  function BackScanAsWritten(s: string, end: nat): (read: int)
    requires end <= |s|
    ensures -1 <= read < end
  {
    if end == 0 then -1
    else if IsSpace(s[end - 1]) then BackScanAsWritten(s, end - 1)
    else end - 1
  }

  /** The back-scan as written reads one before where the guarded scan
      stops. */
  lemma {:induction false} BackScanAsWrittenFrom(s: string, e: nat)
    requires e <= |s|
    ensures BackScanAsWritten(s, e) == TrailingEndFrom(s, e) - 1
  {
    if e > 0 && IsSpace(s[e - 1]) {
      BackScanAsWrittenFrom(s, e - 1);
    }
  }

  /** As written, the back-scan reads before the start of the string exactly
      when the string is empty or all whitespace; otherwise it stops at the
      last character the guarded Trim keeps. */
  lemma BackScanAsWrittenOutOfRange(s: string)
    ensures BackScanAsWritten(s, |s|) == -1 <==> AllSpace(s)
    ensures !AllSpace(s) ==> BackScanAsWritten(s, |s|) == TrailingEnd(s) - 1
  {
    BackScanAsWrittenFrom(s, |s|);
    TrailingEndSpec(s);
    if TrailingEnd(s) > 0 {
      assert !IsSpace(s[TrailingEnd(s) - 1]);
    }
  }

  // ---------------------------------------------------------------------------
  // The scanner
  // ---------------------------------------------------------------------------

  /** One parsed section: its kind, the heading of the kind at parse time,
      and its trimmed body. */
  datatype Section = Section(kind: SectionType, heading: string, body: string)

  /** A recoverable parse error: the entity, the line counter, and the token
      that is not a known command. */
  datatype Diagnostic = Diagnostic(entity: string, line: nat, token: string)

  /** What the scanner produces: the sections and diagnostics; or, when a
      command character at stream index `at` is followed by no space at all,
      the fact that the scan never ends. */
  datatype ScanResult =
    | Parsed(sections: seq<Section>, diagnostics: seq<Diagnostic>)
    | Unterminated(at: nat)

  /** The scanner's variables: stream index, line counter, active kind,
      pending body, and what has been emitted so far. */
  datatype ScanState = ScanState(
    i: nat, line: nat, kind: SectionType, body: string,
    sections: seq<Section>, diagnostics: seq<Diagnostic>)

  /** What finishing the pending body does to the active kind and the sections
      (the `finish_section` lambda). */
  function Finish(cfg: Settings, kind: SectionType, body: string, sections: seq<Section>): (SectionType, seq<Section>)
    requires cfg.WellFormed() && kind != Invalid
  {
    var t := Trim(body);
    if t == [] then (kind, sections)
    else (if kind == Brief then Details else kind, sections + [Section(kind, cfg.Heading(kind), t)])
  }

  /** The scanner state after finishing the pending body. */
  function Flush(cfg: Settings, st: ScanState): ScanState
    requires cfg.WellFormed() && st.kind != Invalid
  {
    var f := Finish(cfg, st.kind, st.body, st.sections);
    st.(kind := f.0, body := [], sections := f.1)
  }

  /** A flush of a blank body emits nothing and keeps the active kind; any
      other flush emits one section of the active kind and moves brief on to
      details. */
  lemma FlushEffect(cfg: Settings, st: ScanState)
    requires cfg.WellFormed() && st.kind != Invalid
    ensures AllSpace(st.body) ==> Flush(cfg, st).kind == st.kind && Flush(cfg, st).sections == st.sections
    ensures !AllSpace(st.body) ==>
      Flush(cfg, st).sections == st.sections + [Section(st.kind, cfg.Heading(st.kind), Trim(st.body))] &&
      Flush(cfg, st).kind == (if st.kind == Brief then Details else st.kind)
    ensures Flush(cfg, st).body == [] && Flush(cfg, st).diagnostics == st.diagnostics
  {
    TrimSpec(st.body);
  }

  /** Index of the first stream character from i on that is neither ' ' nor
      '/': the comment markers skipped after a newline. */
  function SkipMarkers(raw: string, i: nat): (j: nat)
    decreases StreamSize(raw) - i
    ensures i <= j
    ensures i <= StreamSize(raw) ==> j <= StreamSize(raw)
    ensures forall k :: i <= k < j ==> StreamAt(raw, k) == ' ' || StreamAt(raw, k) == '/'
    ensures StreamAt(raw, j) != ' ' && StreamAt(raw, j) != '/'
  {
    if i < StreamSize(raw) && (StreamAt(raw, i) == ' ' || StreamAt(raw, i) == '/') then
      SkipMarkers(raw, i + 1)
    else
      i
  }

  /** A command token and the stream index of the space that ends it. */
  datatype Token = Token(text: string, end: nat)

  /** Reads the rest of a command token from stream index i on, after the
      characters already in acc: everything up to the next ' ', newlines
      included. None when no ' ' follows, where the source loops forever. */
  function ReadToken(raw: string, i: nat, acc: string): (r: Option<Token>)
    requires 1 <= i <= StreamSize(raw)
    decreases StreamSize(raw) - i
    ensures r.Some? ==> i <= r.value.end < StreamSize(raw)
  {
    if i >= StreamSize(raw) then None
    else if StreamAt(raw, i) == ' ' then Some(Token(acc, i))
    else ReadToken(raw, i + 1, acc + [StreamAt(raw, i)])
  }

  /** The token read is everything before the first space from index i on,
      and the space ends it; there is no token exactly when no space
      follows. */
  lemma {:induction false} ReadTokenSpec(raw: string, i: nat, acc: string)
    requires 1 <= i <= StreamSize(raw)
    decreases StreamSize(raw) - i
    ensures var r := ReadToken(raw, i, acc);
      (r.Some? ==>
        raw[r.value.end - 1] == ' ' &&
        r.value.text == acc + raw[i - 1..r.value.end - 1] && ' ' !in raw[i - 1..r.value.end - 1]) &&
      (r.None? <==> ' ' !in raw[i - 1..])
  {
    if i < StreamSize(raw) && StreamAt(raw, i) != ' ' {
      ReadTokenSpec(raw, i + 1, acc + [StreamAt(raw, i)]);
      var r := ReadToken(raw, i + 1, acc + [StreamAt(raw, i)]);
      assert raw[i - 1..] == [raw[i - 1]] + raw[i..];
      if r.Some? {
        assert raw[i - 1..r.value.end - 1] == [raw[i - 1]] + raw[i..r.value.end - 1];
      }
    } else if i < StreamSize(raw) {
      assert raw[i - 1..][0] == ' ';
    }
  }

  /** The state after a newline: the line counter moves on, the pending
      body is finished and the comment markers that follow are skipped. */
  function AfterNewline(cfg: Settings, raw: string, st: ScanState): (r: ScanState)
    requires cfg.WellFormed() && st.kind != Invalid && st.i < StreamSize(raw)
    ensures st.i < r.i <= StreamSize(raw) && r.kind != Invalid
  {
    Flush(cfg, st.(i := st.i + 1, line := st.line + 1)).(i := SkipMarkers(raw, st.i + 1))
  }

  /** The state after a command token: an unknown token is reported and
      changes neither body nor kind; a known one finishes the pending body
      under the old kind and switches to the new kind. */
  function AfterToken(cfg: Settings, entity: string, st: ScanState, tok: Token): (r: ScanState)
    requires cfg.WellFormed() && st.kind != Invalid
    ensures r.i == tok.end && r.kind != Invalid
  {
    var t := ParseSectionName(cfg.commands, tok.text);
    if t == Invalid then st.(i := tok.end, diagnostics := st.diagnostics + [Diagnostic(entity, st.line, tok.text)])
    else Flush(cfg, st.(i := tok.end)).(kind := t)
  }

  /** One iteration of the scanner loop; None when a command token never
      ends. */
  function Step(cfg: Settings, entity: string, raw: string, st: ScanState): (r: Option<ScanState>)
    requires cfg.WellFormed() && st.kind != Invalid && st.i < StreamSize(raw)
    ensures r.Some? ==> st.i < r.value.i <= StreamSize(raw) && r.value.kind != Invalid
  {
    var c := StreamAt(raw, st.i);
    if c == '\n' then Some(AfterNewline(cfg, raw, st))
    else if c == cfg.commandChar then
      match ReadToken(raw, st.i + 1, [])
      case None => None
      case Some(tok) => Some(AfterToken(cfg, entity, st, tok))
    else
      Some(st.(i := st.i + 1, body := st.body + [c]))
  }

  /** Where the scanner loop stops: at the stream end, in a state whose
      pending body is not finished yet, or at a command token that never
      ends. */
  datatype LoopEnd = Ended(last: ScanState) | Stuck(at: nat)

  /** Runs the scanner loop from st until it stops. */
  function Loop(cfg: Settings, entity: string, raw: string, st: ScanState): (r: LoopEnd)
    requires cfg.WellFormed() && st.kind != Invalid && st.i <= StreamSize(raw)
    decreases StreamSize(raw) - st.i, 1
    ensures r.Ended? ==> r.last.kind != Invalid
  {
    if st.i == StreamSize(raw) then Ended(st)
    else if StreamAt(raw, st.i) == '\n' then LoopNewline(cfg, entity, raw, st)
    else if StreamAt(raw, st.i) == cfg.commandChar then LoopCommand(cfg, entity, raw, st)
    else Loop(cfg, entity, raw, st.(i := st.i + 1, body := st.body + [StreamAt(raw, st.i)]))
  }

  /** The loop at a newline. */
  function LoopNewline(cfg: Settings, entity: string, raw: string, st: ScanState): (r: LoopEnd)
    requires cfg.WellFormed() && st.kind != Invalid && st.i < StreamSize(raw)
    decreases StreamSize(raw) - st.i, 0
    ensures r.Ended? ==> r.last.kind != Invalid
  {
    Loop(cfg, entity, raw, AfterNewline(cfg, raw, st))
  }

  /** The loop at a command character. */
  function LoopCommand(cfg: Settings, entity: string, raw: string, st: ScanState): (r: LoopEnd)
    requires cfg.WellFormed() && st.kind != Invalid && st.i < StreamSize(raw)
    decreases StreamSize(raw) - st.i, 0
    ensures r.Ended? ==> r.last.kind != Invalid
  {
    match ReadToken(raw, st.i + 1, [])
    case None => Stuck(st.i)
    case Some(tok) => Loop(cfg, entity, raw, AfterToken(cfg, entity, st, tok))
  }

  /** Runs the scanner loop from st and finishes the last body. */
  function Run(cfg: Settings, entity: string, raw: string, st: ScanState): ScanResult
    requires cfg.WellFormed() && st.kind != Invalid && st.i <= StreamSize(raw)
  {
    match Loop(cfg, entity, raw, st)
    case Stuck(at) => Unterminated(at)
    case Ended(last) => Parsed(Flush(cfg, last).sections, Flush(cfg, last).diagnostics)
  }

  /** Run takes one Step at a time. */
  lemma RunStep(cfg: Settings, entity: string, raw: string, st: ScanState)
    requires cfg.WellFormed() && st.kind != Invalid && st.i < StreamSize(raw)
    ensures Run(cfg, entity, raw, st) ==
      match Step(cfg, entity, raw, st)
      case None => Unterminated(st.i)
      case Some(next) => Run(cfg, entity, raw, next)
  {
    if StreamAt(raw, st.i) == '\n' {
      assert Loop(cfg, entity, raw, st) == LoopNewline(cfg, entity, raw, st);
    } else if StreamAt(raw, st.i) == cfg.commandChar {
      assert Loop(cfg, entity, raw, st) == LoopCommand(cfg, entity, raw, st);
    }
  }

  /** A character that is neither a newline nor the command character goes
      to the pending body. */
  lemma LoopText(cfg: Settings, entity: string, raw: string, st: ScanState)
    requires cfg.WellFormed() && st.kind != Invalid && st.i < StreamSize(raw)
    requires StreamAt(raw, st.i) != '\n' && StreamAt(raw, st.i) != cfg.commandChar
    ensures Loop(cfg, entity, raw, st) == Loop(cfg, entity, raw, st.(i := st.i + 1, body := st.body + [StreamAt(raw, st.i)]))
  {
  }

  /** A step that leaves the scanner in state next leaves the rest of the
      run to next. */
  lemma RunThroughStep(cfg: Settings, entity: string, raw: string, st: ScanState, next: ScanState)
    requires cfg.WellFormed() && st.kind != Invalid && st.i < StreamSize(raw)
    requires Step(cfg, entity, raw, st) == Some(next)
    ensures next.kind != Invalid && next.i <= StreamSize(raw)
    ensures Run(cfg, entity, raw, st) == Run(cfg, entity, raw, next)
  {
    RunStep(cfg, entity, raw, st);
  }

  /** A newline finishes the pending body and the scan goes on after the
      markers of the next line. */
  lemma RunNewline(cfg: Settings, entity: string, raw: string, st: ScanState)
    requires cfg.WellFormed() && st.kind != Invalid && st.i < StreamSize(raw)
    requires StreamAt(raw, st.i) == '\n'
    ensures Run(cfg, entity, raw, st) == Run(cfg, entity, raw, AfterNewline(cfg, raw, st))
  {
    assert Loop(cfg, entity, raw, st) == LoopNewline(cfg, entity, raw, st);
  }

  /** At the end of the stream Run finishes the pending body. */
  lemma RunEnd(cfg: Settings, entity: string, raw: string, st: ScanState)
    requires cfg.WellFormed() && st.kind != Invalid && st.i == StreamSize(raw)
    ensures Run(cfg, entity, raw, st) == Parsed(Flush(cfg, st).sections, Flush(cfg, st).diagnostics)
  {
  }

  /** A newline adds one to the line counter, finishes the pending body and
      skips the comment markers that follow. */
  lemma StepNewline(cfg: Settings, entity: string, raw: string, st: ScanState)
    requires cfg.WellFormed() && st.kind != Invalid && st.i < StreamSize(raw)
    requires StreamAt(raw, st.i) == '\n'
    ensures Step(cfg, entity, raw, st) ==
      Some(Flush(cfg, st.(i := st.i + 1, line := st.line + 1)).(i := SkipMarkers(raw, st.i + 1)))
  {
  }

  /** A command character reads a token up to the next space; a known token
      finishes the pending body under the old kind and switches to the new
      kind, an unknown one is reported and changes neither body nor kind. */
  lemma StepCommand(cfg: Settings, entity: string, raw: string, st: ScanState, tok: Token)
    requires cfg.WellFormed() && st.kind != Invalid && st.i < StreamSize(raw)
    requires StreamAt(raw, st.i) == cfg.commandChar && cfg.commandChar != '\n'
    requires ReadToken(raw, st.i + 1, []) == Some(tok)
    ensures var t := ParseSectionName(cfg.commands, tok.text);
      Step(cfg, entity, raw, st) ==
      if t == Invalid then Some(st.(i := tok.end, diagnostics := st.diagnostics + [Diagnostic(entity, st.line, tok.text)]))
      else Some(Flush(cfg, st.(i := tok.end)).(kind := t))
  {
  }

  /** The scanner's start state: index 0, line 0, brief, nothing pending. */
  function Start(): ScanState
  {
    ScanState(0, 0, Brief, [], [], [])
  }

  /** The sections and diagnostics of one raw comment (the `comment::parser`
      constructor followed by `finish`). */
  function Scan(cfg: Settings, entity: string, raw: string): ScanResult
    requires cfg.WellFormed()
  {
    Run(cfg, entity, raw, Start())
  }

  /** Finishes the pending body into the sections (the `finish_section`
      lambda). */
  method FinishSection(cfg: SectionConfig, kind: SectionType, body: string, sections: seq<Section>)
    returns (kind': SectionType, sections': seq<Section>)
    requires cfg.Valid() && kind != Invalid
    ensures (kind', sections') == Finish(cfg.Snapshot(), kind, body, sections)
    ensures kind' != Invalid
  {
    var trimmed := TrimWhitespace(body);
    if trimmed == [] {
      return kind, sections;
    }
    sections' := sections + [Section(kind, cfg.names[Index(kind)], trimmed)];
    kind' := if kind == Brief then Details else kind;
  }

  /** Skips the comment markers from stream index i on (the loop after a
      newline). */
  method SkipCommentMarkers(raw: string, i: nat) returns (j: nat)
    requires i <= StreamSize(raw)
    ensures j == SkipMarkers(raw, i)
  {
    j := i;
    while StreamAt(raw, j) == ' ' || StreamAt(raw, j) == '/'
      invariant i <= j <= StreamSize(raw)
      invariant SkipMarkers(raw, j) == SkipMarkers(raw, i)
      decreases StreamSize(raw) - j
    {
      j := j + 1;
    }
  }

  /** Reads the token of the command whose character is at stream index
      start (the loop of the command branch); None when no space ends it. */
  method ReadCommand(raw: string, start: nat) returns (r: Option<Token>)
    requires start < StreamSize(raw)
    ensures r == ReadToken(raw, start + 1, [])
  {
    var i := start + 1;
    var token := [];
    while i < StreamSize(raw) && StreamAt(raw, i) != ' '
      invariant start < i <= StreamSize(raw)
      invariant ReadToken(raw, i, token) == ReadToken(raw, start + 1, [])
      decreases StreamSize(raw) - i
    {
      token := token + [StreamAt(raw, i)];
      i := i + 1;
    }
    if i == StreamSize(raw) {
      return None;
    }
    r := Some(Token(token, i));
  }

  /** Parses one raw comment of the named entity under the current
      configuration (the `comment::parser` constructor). */
  method ParseComment(cfg: SectionConfig, entity: string, raw: string) returns (result: ScanResult)
    requires cfg.Valid()
    ensures result == Scan(cfg.Snapshot(), entity, raw)
  {
    ghost var settings := cfg.Snapshot();
    var size := StreamSize(raw);
    var i, line, kind, body, sections, diagnostics := 0, 0, Brief, [], [], [];
    while i < size
      invariant i <= size && kind != Invalid
      invariant Run(settings, entity, raw, ScanState(i, line, kind, body, sections, diagnostics))
             == Scan(settings, entity, raw)
      decreases size - i
    {
      ghost var st := ScanState(i, line, kind, body, sections, diagnostics);
      var c := StreamAt(raw, i);
      if c == '\n' {
        StepNewline(settings, entity, raw, st);
        i, line := i + 1, line + 1;
        kind, sections := FinishSection(cfg, kind, body, sections);
        body := [];
        i := SkipCommentMarkers(raw, i);
        RunThroughStep(settings, entity, raw, st, ScanState(i, line, kind, body, sections, diagnostics));
      } else if c == cfg.commandChar {
        var read := ReadCommand(raw, i);
        if read.None? {
          RunStep(settings, entity, raw, st);
          return Unterminated(i);
        }
        StepCommand(settings, entity, raw, st, read.value);
        var token := read.value.text;
        i := read.value.end;
        var t := ParseSectionName(cfg.commands, token);
        if t == Invalid {
          diagnostics := diagnostics + [Diagnostic(entity, line, token)];
        } else {
          kind, sections := FinishSection(cfg, kind, body, sections);
          body := [];
          kind := t;
        }
        RunThroughStep(settings, entity, raw, st, ScanState(i, line, kind, body, sections, diagnostics));
      } else {
        body := body + [c];
        i := i + 1;
        RunThroughStep(settings, entity, raw, st, ScanState(i, line, kind, body, sections, diagnostics));
      }
    }
    kind, sections := FinishSection(cfg, kind, body, sections);
    result := Parsed(sections, diagnostics);
  }
}

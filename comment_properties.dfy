/**
 * What the section scanner of src/comment.cpp promises, stated over the
 * specification functions of module Comment: the shape of every emitted
 * section and diagnostic, when the scan never ends, and, for comments with
 * no command in them, the exact list of sections line by line.
 */
module CommentProperties {
  import opened Comment

  // ---------------------------------------------------------------------------
  // Shape of the output
  // ---------------------------------------------------------------------------

  /** An emitted section: a real kind under its configured heading, and a
      non-empty trimmed body that holds neither a newline nor the command
      character. */
  ghost predicate SectionOk(cfg: Settings, s: Section)
    requires cfg.WellFormed()
  {
    s.kind != Invalid && s.heading == cfg.Heading(s.kind) &&
    s.body != [] && IsTrimmed(s.body) &&
    '\n' !in s.body && cfg.commandChar !in s.body
  }

  /** A diagnostic names the parsed entity and a token that is not a known
      command. */
  ghost predicate DiagnosticOk(cfg: Settings, entity: string, d: Diagnostic)
  {
    d.entity == entity && ParseSectionName(cfg.commands, d.token) == Invalid
  }

  ghost predicate StateOk(cfg: Settings, entity: string, st: ScanState)
    requires cfg.WellFormed()
  {
    st.kind != Invalid && '\n' !in st.body && cfg.commandChar !in st.body &&
    (forall k :: 0 <= k < |st.sections| ==> SectionOk(cfg, st.sections[k])) &&
    (forall k :: 0 <= k < |st.diagnostics| ==> DiagnosticOk(cfg, entity, st.diagnostics[k]))
  }

  lemma FlushKeepsOk(cfg: Settings, entity: string, st: ScanState)
    requires cfg.WellFormed() && StateOk(cfg, entity, st)
    ensures StateOk(cfg, entity, Flush(cfg, st))
  {
    var t := Trim(st.body);
    TrimSpec(st.body);
    if '\n' in t {
      TrimKeepsInputChars(st.body, '\n');
    }
    if cfg.commandChar in t {
      TrimKeepsInputChars(st.body, cfg.commandChar);
    }
  }

  lemma StepKeepsOk(cfg: Settings, entity: string, raw: string, st: ScanState)
    requires cfg.WellFormed() && StateOk(cfg, entity, st) && st.i < StreamSize(raw)
    ensures Step(cfg, entity, raw, st).Some? ==> StateOk(cfg, entity, Step(cfg, entity, raw, st).value)
  {
    var c := StreamAt(raw, st.i);
    if c == '\n' {
      assert Step(cfg, entity, raw, st) == Some(AfterNewline(cfg, raw, st));
      AfterNewlineKeepsOk(cfg, entity, raw, st);
    } else if c == cfg.commandChar {
      match ReadToken(raw, st.i + 1, [])
      case None =>
      case Some(tok) =>
        assert Step(cfg, entity, raw, st) == Some(AfterToken(cfg, entity, st, tok));
        AfterTokenKeepsOk(cfg, entity, st, tok);
    } else {
      assert Step(cfg, entity, raw, st) == Some(st.(i := st.i + 1, body := st.body + [c]));
      TextKeepsOk(cfg, entity, st, c);
    }
  }

  lemma TextKeepsOk(cfg: Settings, entity: string, st: ScanState, c: char)
    requires cfg.WellFormed() && StateOk(cfg, entity, st) && c != '\n' && c != cfg.commandChar
    ensures StateOk(cfg, entity, st.(i := st.i + 1, body := st.body + [c]))
  {
  }

  lemma AfterNewlineKeepsOk(cfg: Settings, entity: string, raw: string, st: ScanState)
    requires cfg.WellFormed() && StateOk(cfg, entity, st) && st.i < StreamSize(raw)
    ensures StateOk(cfg, entity, AfterNewline(cfg, raw, st))
  {
    FlushKeepsOk(cfg, entity, st.(i := st.i + 1, line := st.line + 1));
  }

  lemma AfterTokenKeepsOk(cfg: Settings, entity: string, st: ScanState, tok: Token)
    requires cfg.WellFormed() && StateOk(cfg, entity, st)
    ensures StateOk(cfg, entity, AfterToken(cfg, entity, st, tok))
  {
    FlushKeepsOk(cfg, entity, st.(i := tok.end));
  }

  lemma {:induction false} RunKeepsOk(cfg: Settings, entity: string, raw: string, st: ScanState)
    requires cfg.WellFormed() && StateOk(cfg, entity, st) && st.i <= StreamSize(raw)
    ensures Run(cfg, entity, raw, st).Parsed? ==>
      (forall k :: 0 <= k < |Run(cfg, entity, raw, st).sections| ==>
         SectionOk(cfg, Run(cfg, entity, raw, st).sections[k])) &&
      (forall k :: 0 <= k < |Run(cfg, entity, raw, st).diagnostics| ==>
         DiagnosticOk(cfg, entity, Run(cfg, entity, raw, st).diagnostics[k]))
    decreases StreamSize(raw) - st.i
  {
    if st.i == StreamSize(raw) {
      FlushKeepsOk(cfg, entity, st);
    } else {
      RunStep(cfg, entity, raw, st);
      StepKeepsOk(cfg, entity, raw, st);
      if Step(cfg, entity, raw, st).Some? {
        RunKeepsOk(cfg, entity, raw, Step(cfg, entity, raw, st).value);
      }
    }
  }

  /** Every section the scanner emits has a real kind, the heading of that
      kind, and a non-empty trimmed body with no newline and no command
      character; every diagnostic names the entity and an unknown token. */
  lemma ScanOutputWellFormed(cfg: Settings, entity: string, raw: string)
    requires cfg.WellFormed()
    ensures Scan(cfg, entity, raw).Parsed? ==>
      (forall k :: 0 <= k < |Scan(cfg, entity, raw).sections| ==>
         SectionOk(cfg, Scan(cfg, entity, raw).sections[k])) &&
      (forall k :: 0 <= k < |Scan(cfg, entity, raw).diagnostics| ==>
         DiagnosticOk(cfg, entity, Scan(cfg, entity, raw).diagnostics[k]))
  {
    RunKeepsOk(cfg, entity, raw, Start());
  }

  // ---------------------------------------------------------------------------
  // When the scan never ends
  // ---------------------------------------------------------------------------

  /** A command character with no space anywhere after it. */
  ghost predicate HasUnterminatedCommand(cfg: Settings, raw: string)
  {
    exists k :: 0 <= k < |raw| && raw[k] == cfg.commandChar && ' ' !in raw[k + 1..]
  }

  lemma {:induction false} RunUnterminatedAt(cfg: Settings, entity: string, raw: string, st: ScanState)
    requires cfg.WellFormed() && st.kind != Invalid && st.i <= StreamSize(raw)
    ensures Run(cfg, entity, raw, st).Unterminated? ==>
      var p := Run(cfg, entity, raw, st).at;
      st.i <= p && 1 <= p <= |raw| && raw[p - 1] == cfg.commandChar && ' ' !in raw[p..]
    decreases StreamSize(raw) - st.i
  {
    if st.i < StreamSize(raw) {
      RunStep(cfg, entity, raw, st);
      ReadTokenSpec(raw, st.i + 1, []);
      match Step(cfg, entity, raw, st)
      case None =>
      case Some(next) => RunUnterminatedAt(cfg, entity, raw, next);
    }
  }

  lemma {:induction false} RunReachesUnterminated(cfg: Settings, entity: string, raw: string, st: ScanState, k: nat)
    requires cfg.WellFormed() && st.kind != Invalid
    requires cfg.commandChar != '\n' && cfg.commandChar != ' ' && cfg.commandChar != '/'
    requires k < |raw| && raw[k] == cfg.commandChar && ' ' !in raw[k + 1..]
    requires st.i <= k + 1
    ensures Run(cfg, entity, raw, st).Unterminated?
    decreases StreamSize(raw) - st.i
  {
    assert StreamAt(raw, k + 1) == cfg.commandChar;
    RunStep(cfg, entity, raw, st);
    var c := StreamAt(raw, st.i);
    if c == cfg.commandChar && c != '\n' {
      var tok := ReadToken(raw, st.i + 1, []);
      ReadTokenSpec(raw, st.i + 1, []);
      if tok.Some? {
        assert raw[tok.value.end - 1] == ' ';
        RunReachesUnterminated(cfg, entity, raw, Step(cfg, entity, raw, st).value, k);
      }
    } else if c == '\n' {
      RunReachesUnterminated(cfg, entity, raw, Step(cfg, entity, raw, st).value, k);
    } else {
      if st.i == k + 1 {
        assert false;
      }
      RunReachesUnterminated(cfg, entity, raw, Step(cfg, entity, raw, st).value, k);
    }
  }

  /** The scan fails to end only at a command character followed by no
      space; and when the command character is not one of the characters the
      scanner treats specially anyway, any such character makes it fail to
      end. */
  lemma ScanUnterminated(cfg: Settings, entity: string, raw: string)
    requires cfg.WellFormed()
    ensures Scan(cfg, entity, raw).Unterminated? ==>
      var p := Scan(cfg, entity, raw).at;
      1 <= p <= |raw| && raw[p - 1] == cfg.commandChar && ' ' !in raw[p..]
    ensures Scan(cfg, entity, raw).Unterminated? ==> HasUnterminatedCommand(cfg, raw)
    ensures cfg.commandChar != '\n' && cfg.commandChar != ' ' && cfg.commandChar != '/' ==>
      (Scan(cfg, entity, raw).Unterminated? <==> HasUnterminatedCommand(cfg, raw))
  {
    RunUnterminatedAt(cfg, entity, raw, Start());
    if Scan(cfg, entity, raw).Unterminated? {
      var p := Scan(cfg, entity, raw).at;
      assert raw[p - 1] == cfg.commandChar && ' ' !in raw[p - 1 + 1..];
    }
    if cfg.commandChar != '\n' && cfg.commandChar != ' ' && cfg.commandChar != '/' && HasUnterminatedCommand(cfg, raw) {
      var k :| 0 <= k < |raw| && raw[k] == cfg.commandChar && ' ' !in raw[k + 1..];
      RunReachesUnterminated(cfg, entity, raw, Start(), k);
    }
  }

  // ---------------------------------------------------------------------------
  // Comments without commands, line by line
  // ---------------------------------------------------------------------------

  /** Index of the first newline of raw at or after k, or |raw|. */
  function NextNewline(raw: string, k: nat): (e: nat)
    requires k <= |raw|
    ensures k <= e <= |raw| && NoChar(raw, k, e, '\n')
    ensures e < |raw| ==> raw[e] == '\n'
    decreases |raw| - k
  {
    if k == |raw| || raw[k] == '\n' then k else NextNewline(raw, k + 1)
  }

  /** No character of raw[a..b] is c. */
  predicate NoChar(raw: string, a: nat, b: nat, c: char)
  {
    forall j :: a <= j < b && j < |raw| ==> raw[j] != c
  }

  /** The lines of raw from index k on, split at each newline. */
  function LinesFrom(raw: string, k: nat): seq<string>
    requires k <= |raw|
    decreases |raw| - k
  {
    var e := NextNewline(raw, k);
    if e == |raw| then [raw[k..]] else [raw[k..e]] + LinesFrom(raw, e + 1)
  }

  /** The lines of raw: the pieces between its newlines. */
  function Lines(raw: string): seq<string>
  {
    LinesFrom(raw, 0)
  }

  /** The text of lines joined again with a newline between each two. */
  function JoinLines(lines: seq<string>): string
  {
    if |lines| == 0 then [] else if |lines| == 1 then lines[0] else lines[0] + "\n" + JoinLines(lines[1..])
  }

  lemma {:induction false} LinesFromJoin(raw: string, k: nat)
    requires k <= |raw|
    ensures JoinLines(LinesFrom(raw, k)) == raw[k..]
    ensures forall j :: 0 <= j < |LinesFrom(raw, k)| ==> '\n' !in LinesFrom(raw, k)[j]
    decreases |raw| - k
  {
    var e := NextNewline(raw, k);
    if e < |raw| {
      LinesFromJoin(raw, e + 1);
      var rest := LinesFrom(raw, e + 1);
      assert LinesFrom(raw, k) == [raw[k..e]] + rest;
      assert |rest| > 0 by {
        if e + 1 == |raw| { } else { }
      }
      assert raw[k..] == raw[k..e] + "\n" + raw[e + 1..];
    }
  }

  /** Splitting at newlines loses nothing: the lines joined with newlines are
      the raw text, and no line holds a newline. */
  lemma LinesJoin(raw: string)
    ensures JoinLines(Lines(raw)) == raw
    ensures forall j :: 0 <= j < |Lines(raw)| ==> '\n' !in Lines(raw)[j]
  {
    LinesFromJoin(raw, 0);
  }

  /** Length of the leading run of ' ' and '/' of a line (its comment
      markers). */
  function LeadingMarkers(line: string): (n: nat)
    ensures n <= |line|
  {
    MarkersFrom(line, 0)
  }

  /** Index of the first character of line at or after k that is neither
      ' ' nor '/', or |line|. */
  function MarkersFrom(line: string, k: nat): (j: nat)
    requires k <= |line|
    ensures k <= j <= |line|
    decreases |line| - k
  {
    if k == |line| || (line[k] != ' ' && line[k] != '/') then k else MarkersFrom(line, k + 1)
  }

  /** A line without its comment markers. */
  function StripMarkers(line: string): string
  {
    Slice(line, LeadingMarkers(line), |line|)
  }

  /** The body each line contributes: the trimmed text after its markers,
      for every line where that is not blank. */
  function LineBodies(lines: seq<string>): seq<string>
  {
    if lines == [] then []
    else
      Piece(StripMarkers(lines[0])) + LineBodies(lines[1..])
  }

  /** The kind that stays active after a section of kind k is emitted. */
  function NextKind(k: SectionType): SectionType
  {
    if k == Brief then Details else k
  }

  /** The sections for a list of bodies when no command changes the kind
      and the first is of kind `first`: brief is followed by details, any
      other kind by itself. */
  function Labelled(cfg: Settings, first: SectionType, bodies: seq<string>): (r: seq<Section>)
    requires cfg.WellFormed() && first != Invalid
    ensures |r| == |bodies|
  {
    seq(|bodies|, j requires 0 <= j < |bodies| =>
      var t := if j == 0 then first else NextKind(first);
      Section(t, cfg.Heading(t), bodies[j]))
  }

  /** Every labelled section has the first kind or the kind that follows
      it, under that kind's heading. */
  lemma LabelledKinds(cfg: Settings, first: SectionType, bodies: seq<string>)
    requires cfg.WellFormed() && first != Invalid
    ensures forall s :: s in Labelled(cfg, first, bodies) ==>
      (s.kind == first || s.kind == NextKind(first)) && s.heading == cfg.Heading(s.kind)
  {
  }

  lemma LabelledEmpty(cfg: Settings, first: SectionType)
    requires cfg.WellFormed() && first != Invalid
    ensures Labelled(cfg, first, []) == []
  {
  }

  /** The active kind once the bodies B have been emitted from kind first. */
  function KindAfter(first: SectionType, B: seq<string>): SectionType
  {
    if B == [] then first else NextKind(first)
  }

  /** The body a trimmed text contributes: itself unless blank. */
  function Piece(text: string): seq<string>
  {
    if Trim(text) == [] then [] else [Trim(text)]
  }

  lemma LabelledAppend(cfg: Settings, first: SectionType, bodies: seq<string>, t: string)
    requires cfg.WellFormed() && first != Invalid
    ensures var k := KindAfter(first, bodies);
      Labelled(cfg, first, bodies + [t]) == Labelled(cfg, first, bodies) + [Section(k, cfg.Heading(k), t)]
  {
  }

  /** Stream indexes a up to q hold neither a newline nor the command
      character. */
  predicate TextUpTo(cfg: Settings, raw: string, a: nat, q: nat)
    decreases q - a
  {
    a >= q || (StreamAt(raw, a) != '\n' && StreamAt(raw, a) != cfg.commandChar && TextUpTo(cfg, raw, a + 1, q))
  }

  lemma {:induction false} TextUpToAll(cfg: Settings, raw: string, a: nat, q: nat)
    requires forall p :: a <= p < q ==> StreamAt(raw, p) != '\n' && StreamAt(raw, p) != cfg.commandChar
    ensures TextUpTo(cfg, raw, a, q)
    decreases q - a
  {
    if a < q {
      TextUpToAll(cfg, raw, a + 1, q);
    }
  }

  /** Text that holds neither a newline nor the command character is
      appended to the pending body one character at a time: from stream
      index st.i to q the scanner only extends the body, to t. */
  lemma {:induction false} LoopThroughText(cfg: Settings, entity: string, raw: string, st: ScanState, q: nat, t: string)
    requires cfg.WellFormed() && st.kind != Invalid
    requires 1 <= st.i <= q <= StreamSize(raw)
    requires TextUpTo(cfg, raw, st.i, q)
    requires t == st.body + Slice(raw, st.i - 1, q - 1)
    ensures Loop(cfg, entity, raw, st) == Loop(cfg, entity, raw, st.(i := q, body := t))
    decreases q - st.i
  {
    if st.i == q {
      assert Slice(raw, st.i - 1, q - 1) == [];
      assert st.body + [] == st.body;
      assert st.(i := q, body := t) == st;
    } else {
      var c := StreamAt(raw, st.i);
      LoopText(cfg, entity, raw, st);
      TextStep(st.body, raw, st.i, q);
      LoopThroughText(cfg, entity, raw, st.(i := st.i + 1, body := st.body + [c]), q, t);
    }
  }

  /** One more character read is one fewer left to read. */
  lemma TextStep(body: string, raw: string, i: nat, q: nat)
    requires 1 <= i < q <= StreamSize(raw)
    ensures body + [StreamAt(raw, i)] + Slice(raw, i, q - 1) == body + Slice(raw, i - 1, q - 1)
  {
    assert Slice(raw, i - 1, q - 1) == [raw[i - 1]] + Slice(raw, i, q - 1);
  }

  /** After the newline before line start s, the scanner skips exactly the
      markers of that line. */
  lemma {:induction false} SkipLineMarkers(raw: string, s: nat, k: nat, e: nat)
    requires s + k <= e <= |raw| && NoChar(raw, s, e, '\n')
    requires e < |raw| ==> raw[e] == '\n'
    ensures SkipMarkers(raw, s + k + 1) == s + 1 + MarkersFrom(raw[s..e], k)
    decreases e - s - k
  {
    if s + k < e {
      assert raw[s..e][k] == raw[s + k];
      SkipLineMarkers(raw, s, k + 1, e);
    }
  }

  /** Slicing line raw[s..e] from a to its end is slicing raw from s + a to
      e. */
  lemma {:induction false} SliceOfLine(raw: string, s: nat, e: nat, a: nat)
    requires s <= e <= |raw| && a <= e - s
    ensures Slice(raw[s..e], a, e - s) == Slice(raw, s + a, e)
    decreases e - s - a
  {
    if a < e - s {
      var line := raw[s..e];
      SliceOfLine(raw, s, e, a + 1);
      assert Slice(line, a, e - s) == [line[a]] + Slice(line, a + 1, e - s);
      assert Slice(raw, s + a, e) == [raw[s + a]] + Slice(raw, s + a + 1, e);
      assert line[a] == raw[s + a];
    }
  }

  /** Within line s, from stream index a on, every stream character up to
      the newline is text. */
  lemma LineTextUpTo(cfg: Settings, raw: string, s: nat, a: nat)
    requires s <= |raw| && NoChar(raw, s, |raw|, cfg.commandChar)
    requires s + 1 <= a <= NextNewline(raw, s) + 1
    ensures TextUpTo(cfg, raw, a, NextNewline(raw, s) + 1)
  {
    TextUpToAll(cfg, raw, a, NextNewline(raw, s) + 1);
  }

  /** Finishing a pending body extends the bodies emitted so far by what the
      body contributes. */
  lemma FlushLine(cfg: Settings, st: ScanState, first: SectionType, B: seq<string>)
    requires cfg.WellFormed() && first != Invalid
    requires st.kind == KindAfter(first, B) && st.sections == Labelled(cfg, first, B)
    ensures var B' := B + Piece(st.body);
      Flush(cfg, st).kind == KindAfter(first, B') &&
      Flush(cfg, st).sections == Labelled(cfg, first, B') &&
      Flush(cfg, st).body == [] && Flush(cfg, st).diagnostics == st.diagnostics
  {
    var t := Trim(st.body);
    if t != [] {
      LabelledAppend(cfg, first, B, t);
    } else {
      assert B + [] == B;
    }
  }

  /** The bodies of the lines that follow the line starting at s. */
  function LaterBodies(raw: string, s: nat): seq<string>
    requires s <= |raw|
  {
    var e := NextNewline(raw, s);
    if e == |raw| then [] else LineBodies(LinesFrom(raw, e + 1))
  }

  /** The scanner at the end of the line starting at s, with the line's text
      pending, in a part of the comment without commands. */
  lemma {:induction false} RunAtLineEnd(cfg: Settings, entity: string, raw: string, st: ScanState,
                                       s: nat, e: nat, first: SectionType, B: seq<string>)
    requires cfg.WellFormed() && first != Invalid
    requires s <= |raw| && NoChar(raw, s, |raw|, cfg.commandChar)
    requires e == NextNewline(raw, s) && st.i == e + 1
    requires st.kind == KindAfter(first, B) && st.sections == Labelled(cfg, first, B)
    ensures Run(cfg, entity, raw, st) ==
      Parsed(Labelled(cfg, first, B + Piece(st.body) + LaterBodies(raw, s)), st.diagnostics)
    decreases |raw| - s, 0
  {
    var B' := B + Piece(st.body);
    FlushLine(cfg, st, first, B);
    if e == |raw| {
      RunEnd(cfg, entity, raw, st);
      assert B' + [] == B';
    } else {
      var st1 := st.(i := e + 2, line := st.line + 1);
      var st2 := AfterNewline(cfg, raw, st);
      RunNewline(cfg, entity, raw, st);
      FlushLine(cfg, st1, first, B);
      RunPlainLines(cfg, entity, raw, st2, e + 1, first, B');
    }
  }

  /** The scanner at the start of line s, in a part of the comment without
      commands, having emitted the sections for bodies B so far. */
  lemma {:induction false} RunPlainLines(cfg: Settings, entity: string, raw: string, st: ScanState,
                                        s: nat, first: SectionType, B: seq<string>)
    requires cfg.WellFormed() && first != Invalid
    requires s <= |raw| && NoChar(raw, s, |raw|, cfg.commandChar)
    requires st.i == SkipMarkers(raw, s + 1) && st.body == []
    requires st.kind == KindAfter(first, B) && st.sections == Labelled(cfg, first, B)
    ensures Run(cfg, entity, raw, st) ==
      Parsed(Labelled(cfg, first, B + LineBodies(LinesFrom(raw, s))), st.diagnostics)
    decreases |raw| - s, 1
  {
    var e := NextNewline(raw, s);
    var t := LineBody(raw, s, st.i, e);
    assert st.body + t == t;
    RunToLineEnd(cfg, entity, raw, st, s, e, t);
    RunAtLineEnd(cfg, entity, raw, st.(i := e + 1, body := t), s, e, first, B);
    AppendAssoc(B, Piece(t), LaterBodies(raw, s));
  }

  /** From stream index st.i within line s to the end of that line the
      scanner only appends the text to the pending body, which becomes t. */
  lemma LoopToLineEnd(cfg: Settings, entity: string, raw: string, st: ScanState, s: nat, e: nat, t: string)
    requires cfg.WellFormed() && st.kind != Invalid
    requires s <= |raw| && NoChar(raw, s, |raw|, cfg.commandChar)
    requires e == NextNewline(raw, s) && s + 1 <= st.i <= e + 1
    requires t == st.body + Slice(raw, st.i - 1, e)
    ensures Loop(cfg, entity, raw, st) == Loop(cfg, entity, raw, st.(i := e + 1, body := t))
  {
    LineTextUpTo(cfg, raw, s, st.i);
    LoopThroughText(cfg, entity, raw, st, e + 1, t);
  }

  /** The same, for the whole scan. */
  lemma RunToLineEnd(cfg: Settings, entity: string, raw: string, st: ScanState, s: nat, e: nat, t: string)
    requires cfg.WellFormed() && st.kind != Invalid
    requires s <= |raw| && NoChar(raw, s, |raw|, cfg.commandChar)
    requires e == NextNewline(raw, s) && s + 1 <= st.i <= e + 1
    requires t == st.body + Slice(raw, st.i - 1, e)
    ensures Run(cfg, entity, raw, st) == Run(cfg, entity, raw, st.(i := e + 1, body := t))
  {
    LoopToLineEnd(cfg, entity, raw, st, s, e, t);
  }

  /** The body of line s: the text from where the scanner stops skipping
      markers to the newline, which is the line without its markers. */
  lemma LineBody(raw: string, s: nat, a: nat, e: nat) returns (t: string)
    requires s <= |raw| && a == SkipMarkers(raw, s + 1) && e == NextNewline(raw, s)
    ensures s + 1 <= a <= e + 1
    ensures t == Slice(raw, a - 1, e)
    ensures Piece(t) + LaterBodies(raw, s) == LineBodies(LinesFrom(raw, s))
  {
    t := StripMarkers(raw[s..e]);
    StrippedLine(raw, s, a, e);
    FirstLineBodies(raw, s, e);
  }

  /** The line without its markers is the text from where the scanner stops
      skipping markers to the newline. */
  lemma StrippedLine(raw: string, s: nat, a: nat, e: nat)
    requires s <= |raw| && a == SkipMarkers(raw, s + 1) && e == NextNewline(raw, s)
    ensures s + 1 <= a <= e + 1
    ensures StripMarkers(raw[s..e]) == Slice(raw, a - 1, e)
  {
    var line := raw[s..e];
    var k := LeadingMarkers(line);
    SkipLineMarkers(raw, s, 0, e);
    assert a == s + 1 + k;
    SliceOfLine(raw, s, e, k);
  }

  /** The bodies of the lines from s on: the body of line s, then the later
      ones. */
  lemma FirstLineBodies(raw: string, s: nat, e: nat)
    requires s <= |raw| && e == NextNewline(raw, s)
    ensures LineBodies(LinesFrom(raw, s)) == Piece(StripMarkers(raw[s..e])) + LaterBodies(raw, s)
  {
    LinesFromCons(raw, s);
    if e == |raw| {
      LineBodiesCons(raw[s..e], []);
    } else {
      LineBodiesCons(raw[s..e], LinesFrom(raw, e + 1));
    }
  }

  lemma LinesFromCons(raw: string, s: nat)
    requires s <= |raw|
    ensures var e := NextNewline(raw, s);
      LinesFrom(raw, s) == [raw[s..e]] + (if e == |raw| then [] else LinesFrom(raw, e + 1))
  {
    var e := NextNewline(raw, s);
    if e == |raw| {
      assert raw[s..] == raw[s..e];
      assert [raw[s..e]] + [] == [raw[s..e]];
    }
  }

  lemma LineBodiesCons(line: string, rest: seq<string>)
    ensures LineBodies([line] + rest) == Piece(StripMarkers(line)) + LineBodies(rest)
  {
    assert ([line] + rest)[0] == line && ([line] + rest)[1..] == rest;
  }

  lemma AppendAssoc(a: seq<string>, b: seq<string>, c: seq<string>)
    ensures a + b + c == a + (b + c)
  {
  }

  /** A comment with no command character in it is split at its newlines;
      each line loses its leading ' ' and '/' markers and is trimmed; every
      line that is then not blank becomes one section, in order, never merged:
      the first brief, every later one details. No diagnostic is reported. */
  lemma ScanPlainComment(cfg: Settings, entity: string, raw: string)
    requires cfg.WellFormed() && cfg.commandChar !in raw
    ensures Scan(cfg, entity, raw) == Parsed(Labelled(cfg, Brief, LineBodies(Lines(raw))), [])
  {
    var st := AfterNewline(cfg, raw, Start());
    RunNewline(cfg, entity, raw, Start());
    assert Labelled(cfg, Brief, []) == [];
    RunPlainLines(cfg, entity, raw, st, 0, Brief, []);
  }

  /** ReadToken stops at the first space. */
  lemma {:induction false} ReadTokenAt(raw: string, i: nat, m: nat, acc: string)
    requires 1 <= i <= m < StreamSize(raw)
    requires ' ' !in raw[i - 1..m - 1] && raw[m - 1] == ' '
    ensures ReadToken(raw, i, acc) == Some(Token(acc + raw[i - 1..m - 1], m))
    decreases m - i
  {
    if i < m {
      assert raw[i - 1..m - 1] == [raw[i - 1]] + raw[i..m - 1];
      assert StreamAt(raw, i) == raw[i - 1] != ' ';
      ReadTokenAt(raw, i + 1, m, acc + [raw[i - 1]]);
      assert acc + [raw[i - 1]] + raw[i..m - 1] == acc + raw[i - 1..m - 1];
    } else {
      assert StreamAt(raw, i) == ' ';
      assert acc + raw[i - 1..m - 1] == acc;
    }
  }

  /** The body the line after a command contributes: its text, trimmed but
      with no markers removed, as it follows the command on the same line. */
  function CommandLineBodies(raw: string, m: nat): seq<string>
    requires m <= |raw|
  {
    Piece(raw[m..NextNewline(raw, m)]) + LaterBodies(raw, m)
  }

  /** From raw index m on, in a part of the comment without commands and
      with nothing pending or emitted, the text up to the newline is one
      body, unstripped, and every later line is a plain line. */
  lemma RunFromMidLine(cfg: Settings, entity: string, raw: string, st: ScanState, m: nat)
    requires cfg.WellFormed() && st.kind != Invalid
    requires m <= |raw| && NoChar(raw, m, |raw|, cfg.commandChar)
    requires st.i == m + 1 && st.body == [] && st.sections == []
    ensures Run(cfg, entity, raw, st) ==
      Parsed(Labelled(cfg, st.kind, CommandLineBodies(raw, m)), st.diagnostics)
  {
    var e := NextNewline(raw, m);
    var t := RestOfLineBody(raw, m, e);
    assert st.i - 1 == m && st.body + t == t;
    RunToLineEnd(cfg, entity, raw, st, m, e, t);
    LabelledEmpty(cfg, st.kind);
    RunAtLineEnd(cfg, entity, raw, st.(i := e + 1, body := t), m, e, st.kind, []);
  }

  /** The rest of the line from raw index m on, as a slice of raw and as
      the first of CommandLineBodies. */
  lemma RestOfLineBody(raw: string, m: nat, e: nat) returns (t: string)
    requires m <= |raw| && e == NextNewline(raw, m)
    ensures t == Slice(raw, m, e)
    ensures [] + Piece(t) + LaterBodies(raw, m) == CommandLineBodies(raw, m)
  {
    t := raw[m..e];
    SliceSpec(raw, m, e);
    assert [] + Piece(t) == Piece(t);
  }

  /** The state after a leading command token: the kind it selects (brief
      when unknown) and the diagnostic for an unknown token. */
  function AfterCommand(cfg: Settings, entity: string, token: string): ScanState
    requires cfg.WellFormed()
  {
    var k := ParseSectionName(cfg.commands, token);
    ScanState(|token| + 2, 1, if k == Invalid then Brief else k, [], [],
              if k == Invalid then [Diagnostic(entity, 1, token)] else [])
  }

  /** The first two steps over a comment that opens with a command token:
      the synthetic newline, then the command with its token. */
  lemma RunLeadingCommand(cfg: Settings, entity: string, raw: string, token: string, text: string)
    requires cfg.WellFormed()
    requires cfg.commandChar != '\n' && cfg.commandChar != ' ' && cfg.commandChar != '/'
    requires ' ' !in token
    requires raw == [cfg.commandChar] + token + [' '] + text
    ensures Scan(cfg, entity, raw) == Run(cfg, entity, raw, AfterCommand(cfg, entity, token))
  {
    RunOpeningNewline(cfg, entity, raw);
    RunFirstToken(cfg, entity, raw, token, text);
  }

  /** The synthetic newline before the first character finishes nothing and
      starts line 1 at that character when it is not a marker. */
  lemma RunOpeningNewline(cfg: Settings, entity: string, raw: string)
    requires cfg.WellFormed() && raw != [] && raw[0] != ' ' && raw[0] != '/'
    ensures Scan(cfg, entity, raw) == Run(cfg, entity, raw, ScanState(1, 1, Brief, [], [], []))
  {
    StepNewline(cfg, entity, raw, Start());
    RunStep(cfg, entity, raw, Start());
    assert SkipMarkers(raw, 1) == 1;
    assert Step(cfg, entity, raw, Start()) == Some(ScanState(1, 1, Brief, [], [], []));
  }

  /** A command token at the start of line 1 selects its kind, or is
      reported when unknown. */
  lemma RunFirstToken(cfg: Settings, entity: string, raw: string, token: string, text: string)
    requires cfg.WellFormed() && cfg.commandChar != '\n'
    requires ' ' !in token
    requires raw == [cfg.commandChar] + token + [' '] + text
    ensures Run(cfg, entity, raw, ScanState(1, 1, Brief, [], [], [])) ==
      Run(cfg, entity, raw, AfterCommand(cfg, entity, token))
  {
    var st1 := ScanState(1, 1, Brief, [], [], []);
    StepFirstToken(cfg, entity, raw, token, text);
    RunStep(cfg, entity, raw, st1);
  }

  lemma StepFirstToken(cfg: Settings, entity: string, raw: string, token: string, text: string)
    requires cfg.WellFormed() && cfg.commandChar != '\n'
    requires ' ' !in token
    requires raw == [cfg.commandChar] + token + [' '] + text
    ensures Step(cfg, entity, raw, ScanState(1, 1, Brief, [], [], [])) == Some(AfterCommand(cfg, entity, token))
  {
    var m := |token| + 1;
    var st1 := ScanState(1, 1, Brief, [], [], []);
    FirstToken(cfg, raw, token, text);
    StepCommand(cfg, entity, raw, st1, Token(token, m + 1));
    if ParseSectionName(cfg.commands, token) == Invalid {
      assert [] + [Diagnostic(entity, 1, token)] == [Diagnostic(entity, 1, token)];
    } else {
      FlushEffect(cfg, st1.(i := m + 1));
    }
  }

  /** The token after the opening command character runs up to the first
      space. */
  lemma FirstToken(cfg: Settings, raw: string, token: string, text: string)
    requires ' ' !in token
    requires raw == [cfg.commandChar] + token + [' '] + text
    ensures StreamAt(raw, 1) == cfg.commandChar
    ensures ReadToken(raw, 2, []) == Some(Token(token, |token| + 2))
  {
    var m := |token| + 1;
    assert raw[1..m] == token && raw[m] == ' ';
    ReadTokenAt(raw, 2, m + 1, []);
    assert [] + raw[1..m] == token;
  }

  /** A comment that opens with a command token followed by a space, and has
      no other command character: a known token switches the kind before any
      text, so the rest of the first line and every later non-blank line
      become sections of that kind (details after a brief), each its own
      entry; an unknown token is reported once, on line 1, is dropped from
      the text, and leaves the kind brief. */
  lemma ScanLeadingCommand(cfg: Settings, entity: string, raw: string, token: string, text: string)
    requires cfg.WellFormed()
    requires cfg.commandChar != '\n' && cfg.commandChar != ' ' && cfg.commandChar != '/'
    requires ' ' !in token && cfg.commandChar !in text
    requires raw == [cfg.commandChar] + token + [' '] + text
    ensures var k := ParseSectionName(cfg.commands, token);
      var bodies := CommandLineBodies(raw, |token| + 1);
      Scan(cfg, entity, raw) ==
        if k == Invalid then Parsed(Labelled(cfg, Brief, bodies), [Diagnostic(entity, 1, token)])
        else Parsed(Labelled(cfg, k, bodies), [])
  {
    var m := |token| + 1;
    RunLeadingCommand(cfg, entity, raw, token, text);
    forall j | m <= j < |raw| ensures raw[j] != cfg.commandChar {
      if j > m { assert raw[j] == text[j - m - 1]; }
    }
    RunFromMidLine(cfg, entity, raw, AfterCommand(cfg, entity, token), m);
  }
}

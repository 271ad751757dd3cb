/**
 * Worked instances of the comment scanner: a two-line comment without
 * commands, and a command token renamed in the configuration.
 */
module CommentExamples {
  import opened Comment
  import opened CommentProperties

  /** A line of the form "/// text", text starting with neither a space nor
      a slash, loses exactly its "/// " marker. */
  lemma StripTripleSlash(line: string, text: string)
    requires line == "/// " + text && text != [] && text[0] != ' ' && text[0] != '/'
    ensures StripMarkers(line) == text
  {
    assert MarkersFrom(line, 4) == 4;
    assert MarkersFrom(line, 3) == 4;
    assert MarkersFrom(line, 2) == 4;
    assert MarkersFrom(line, 1) == 4;
    assert line[4..] == text;
    SliceSpec(line, 4, |line|);
  }

  lemma TwoLineSplit(raw: string)
    requires raw == "/// a\n/// b"
    ensures Lines(raw) == ["/// a", "/// b"]
  {
    assert raw[5] == '\n';
    LinesFromCons(raw, 0);
    assert NextNewline(raw, 0) == 5;
    LinesFromCons(raw, 6);
    assert NextNewline(raw, 6) == 11;
    assert raw[0..5] == "/// a" && raw[6..11] == "/// b";
  }

  lemma TwoLineBodies(raw: string)
    requires raw == "/// a\n/// b"
    ensures LineBodies(Lines(raw)) == ["a", "b"]
  {
    TwoLineSplit(raw);
    var l1, l2 := "/// a", "/// b";
    StripTripleSlash(l1, "a");
    StripTripleSlash(l2, "b");
    assert Trim("a") == "a" && Trim("b") == "b";
    LineBodiesCons(l1, [l2]);
    LineBodiesCons(l2, []);
    assert [l1, l2] == [l1] + [l2] && [l2] == [l2] + [];
  }

  /** Two plain lines are two sections, the first brief and the second
      details; they are not merged into one brief. */
  lemma TwoLines(cfg: Settings, entity: string, raw: string)
    requires cfg.WellFormed() && cfg.commandChar !in "/ ab\n"
    requires raw == "/// a\n/// b"
    ensures Scan(cfg, entity, raw) ==
      Parsed([Section(Brief, cfg.Heading(Brief), "a"), Section(Details, cfg.Heading(Details), "b")], [])
  {
    assert cfg.commandChar !in raw;
    ScanPlainComment(cfg, entity, raw);
    TwoLineBodies(raw);
    LabelledPair(cfg, Brief, "a", "b");
  }

  lemma LabelledPair(cfg: Settings, first: SectionType, x: string, y: string)
    requires cfg.WellFormed() && first != Invalid
    ensures Labelled(cfg, first, [x, y]) ==
      [Section(first, cfg.Heading(first), x), Section(NextKind(first), cfg.Heading(NextKind(first)), y)]
  {
  }

  /** Once the token "notes" is renamed to "remark", a comment opening with
      the old token reports it and keeps brief/details text. */
  lemma RenamedOldToken(cfg: Settings, entity: string, text: string, raw: string)
    requires cfg.WellFormed() && cfg.commandChar == '\\' && '\\' !in text
    requires "notes" !in cfg.commands
    requires raw == "\\notes " + text
    ensures Scan(cfg, entity, raw) ==
      Parsed(Labelled(cfg, Brief, CommandLineBodies(raw, 6)), [Diagnostic(entity, 1, "notes")])
  {
    assert raw == ['\\'] + "notes" + [' '] + text;
    ScanLeadingCommand(cfg, entity, raw, "notes", text);
  }

  /** Once the token "notes" is renamed to "remark", a comment opening with
      the new token is all notes. */
  lemma RenamedNewToken(cfg: Settings, entity: string, text: string, raw: string)
    requires cfg.WellFormed() && cfg.commandChar == '\\' && '\\' !in text
    requires "remark" in cfg.commands && cfg.commands["remark"] == Notes
    requires raw == "\\remark " + text
    ensures Scan(cfg, entity, raw) == Parsed(Labelled(cfg, Notes, CommandLineBodies(raw, 7)), [])
  {
    assert raw == ['\\'] + "remark" + [' '] + text;
    ScanLeadingCommand(cfg, entity, raw, "remark", text);
  }

  /** The default configuration with "notes" renamed to "remark". */
  function RenamedSettings(): (s: Settings)
    ensures s.WellFormed()
  {
    DefaultSettings().(commands := (DefaultCommands() - {"notes"})["remark" := Notes])
  }

  /** The renamed configuration resolves "remark" and not "notes", and keeps
      the default headings. */
  lemma RenamedSettingsFacts()
    ensures RenamedSettings().commandChar == '\\'
    ensures "notes" !in RenamedSettings().commands
    ensures "remark" in RenamedSettings().commands && RenamedSettings().commands["remark"] == Notes
    ensures RenamedSettings().Heading(Brief) == "" && RenamedSettings().Heading(Details) == ""
    ensures RenamedSettings().Heading(Notes) == "Notes"
  {
  }

  lemma DefaultTokens()
    ensures "notes" in DefaultCommands() && DefaultCommands()["notes"] == Notes
    ensures "remark" !in DefaultCommands()
  {
    DefaultCommandsResolve();
    DefaultCommandsAreIdentifiers();
    assert Identifier(Notes) == "notes";
  }

  /** The default configuration with "notes" renamed to "remark", applied to
      the same text behind each token. */
  method RenameScenario(entity: string, text: string) returns (unresolved: ScanResult, resolved: ScanResult)
    requires '\\' !in text
    ensures unresolved.Parsed? && unresolved.diagnostics == [Diagnostic(entity, 1, "notes")]
    ensures forall s :: s in unresolved.sections ==> s.kind in {Brief, Details} && s.heading == ""
    ensures resolved.Parsed? && resolved.diagnostics == []
    ensures forall s :: s in resolved.sections ==> s.kind == Notes && s.heading == "Notes"
  {
    var cfg := new SectionConfig.Default();
    DefaultTokens();
    var r := cfg.RenameSectionCommand("notes", "remark");
    assert cfg.Snapshot() == RenamedSettings();
    var oldRaw, newRaw := "\\notes " + text, "\\remark " + text;
    unresolved := ParseComment(cfg, entity, oldRaw);
    resolved := ParseComment(cfg, entity, newRaw);
    RenamedScanOld(entity, text, oldRaw);
    RenamedScanNew(entity, text, newRaw);
  }

  /** Under the renamed configuration the old token is reported and the
      text after it stays brief/details under an empty heading. */
  lemma RenamedScanOld(entity: string, text: string, raw: string)
    requires '\\' !in text && raw == "\\notes " + text
    ensures var r := Scan(RenamedSettings(), entity, raw);
      r.Parsed? && r.diagnostics == [Diagnostic(entity, 1, "notes")] &&
      forall s :: s in r.sections ==> s.kind in {Brief, Details} && s.heading == ""
  {
    var settings := RenamedSettings();
    RenamedSettingsFacts();
    RenamedOldToken(settings, entity, text, raw);
    LabelledKinds(settings, Brief, CommandLineBodies(raw, 6));
  }

  /** Under the renamed configuration the new token opens a notes section. */
  lemma RenamedScanNew(entity: string, text: string, raw: string)
    requires '\\' !in text && raw == "\\remark " + text
    ensures var r := Scan(RenamedSettings(), entity, raw);
      r.Parsed? && r.diagnostics == [] &&
      forall s :: s in r.sections ==> s.kind == Notes && s.heading == "Notes"
  {
    var settings := RenamedSettings();
    RenamedSettingsFacts();
    RenamedNewToken(settings, entity, text, raw);
    LabelledKinds(settings, Notes, CommandLineBodies(raw, 7));
  }
}

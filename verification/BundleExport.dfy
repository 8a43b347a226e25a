/** export_service_bundle (quadlet_writer.py), and what the bundle parser reads back from it. */
module BundleExport {
  import opened Text
  import opened Units
  import opened UnitSync
  import opened BundleParser

  datatype Section = Section(fileName: string, content: string)

  const FILE_NAME_LINE := "# FileName="

  function SectionText(s: Section): string {
    FILE_NAME_LINE + s.fileName + "\n" + RStrip(s.content)
  }

  function Texts(sections: seq<Section>): (r: seq<string>)
    ensures |r| == |sections|
  {
    seq(|sections|, i requires 0 <= i < |sections| => SectionText(sections[i]))
  }

  /** The name a unit has in a bundle: volumes carry the compartment id. */
  function BundleName(cfg: Config, u: Unit): string {
    if u.body.VolumeBody? then cfg.sid + "-" + u.name else u.name
  }

  /** A unit's section is named after its file, without the suffix of its kind. */
  lemma BundleNameIsStem(cfg: Config, u: Unit)
    ensures FileOf(cfg, u) == BundleName(cfg, u) + Suffix(KindOf(u))
  {
  }

  function SectionsOf(cfg: Config, db: Db, us: seq<Unit>): (r: seq<Section>)
    ensures |r| == |us|
  {
    seq(|us|, i requires 0 <= i < |us| => Section(BundleName(cfg, us[i]), Rendered(cfg, db, us[i])))
  }

  function ExportedUnits(db: Db): seq<Unit> {
    List(db, KPod) + QuadletVolumes(db) + List(db, KImage) + List(db, KBuild) + List(db, KContainer) + UsedNetworks(db)
  }

  function ExportSections(cfg: Config, db: Db): seq<Section> {
    SectionsOf(cfg, db, ExportedUnits(db))
  }

  lemma TextsSnoc(cfg: Config, db: Db, us: seq<Unit>, u: Unit)
    ensures Texts(SectionsOf(cfg, db, us + [u]))
         == Texts(SectionsOf(cfg, db, us)) + [SectionText(Section(BundleName(cfg, u), Rendered(cfg, db, u)))]
  {
  }

  lemma SelectSnoc(done: seq<Unit>, us: seq<Unit>, i: nat, p: Unit -> bool)
    requires i < |us|
    ensures done + Select(us[i..], p) == (if p(us[i]) then done + [us[i]] else done) + Select(us[i + 1..], p)
  {
    assert us[i..][1..] == us[i + 1..];
  }

  /** for u in us: if p(u): sections.append(...) */
  method AppendSections(cfg: Config, db: Db, us: seq<Unit>, p: Unit -> bool, sofar: seq<string>,
                        ghost before: seq<Unit>)
    returns (texts: seq<string>)
    requires sofar == Texts(SectionsOf(cfg, db, before))
    ensures texts == Texts(SectionsOf(cfg, db, before + Select(us, p)))
  {
    hide Rendered, Texts, SectionsOf, SectionText, BundleName, Select;
    texts := sofar;
    ghost var done := before;
    assert us[0..] == us;
    for i := 0 to |us|
      invariant done + Select(us[i..], p) == before + Select(us, p)
      invariant texts == Texts(SectionsOf(cfg, db, done))
    {
      SelectSnoc(done, us, i, p);
      if p(us[i]) {
        TextsSnoc(cfg, db, done, us[i]);
        texts := texts + [SectionText(Section(BundleName(cfg, us[i]), Rendered(cfg, db, us[i])))];
        done := done + [us[i]];
      }
    }
    SelectNone(p);
    assert us[|us|..] == [] && done + [] == done;
  }

  lemma SelectNone(p: Unit -> bool)
    ensures Select([], p) == []
  {
  }

  method ExportServiceBundle(cfg: Config, db: Db) returns (bundle: string)
    ensures bundle == Bundle(Texts(ExportSections(cfg, db)))
  {
    hide List, Select, InUse, OnDisk, Texts, SectionsOf;
    SelectAll(List(db, KPod));
    SelectAll(List(db, KImage));
    SelectAll(List(db, KBuild));
    SelectAll(List(db, KContainer));
    ghost var done: seq<Unit> := [];
    NoTexts(cfg, db);
    var texts := AppendSections(cfg, db, List(db, KPod), Any(), [], done);
    assert [] + List(db, KPod) == List(db, KPod);
    done := List(db, KPod);
    texts := AppendSections(cfg, db, List(db, KVolume), OnDisk(), texts, done);
    done := done + QuadletVolumes(db);
    texts := AppendSections(cfg, db, List(db, KImage), Any(), texts, done);
    done := done + List(db, KImage);
    texts := AppendSections(cfg, db, List(db, KBuild), Any(), texts, done);
    done := done + List(db, KBuild);
    texts := AppendSections(cfg, db, List(db, KContainer), Any(), texts, done);
    done := done + List(db, KContainer);
    texts := AppendSections(cfg, db, List(db, KNetwork), InUse(db), texts, done);
    bundle := Join(SEPARATOR, texts) + "\n";
  }

  lemma NoTexts(cfg: Config, db: Db)
    ensures Texts(SectionsOf(cfg, db, [])) == []
  {
  }

  // ---- reading it back ----

  /** SafeResourceName and SafeSlug: lower-case letters, digits, dash and underscore, at least one. */
  predicate PlainName(n: string) {
    n != "" && forall i :: 0 <= i < |n| ==> 'a' <= n[i] <= 'z' || '0' <= n[i] <= '9' || n[i] == '-' || n[i] == '_'
  }

  lemma PlainNameIsWord(n: string)
    requires PlainName(n)
    ensures Trimmed(n) && OneLine(n)
  {
  }

  lemma FileNameLineOneLine(n: string)
    requires OneLine(n)
    ensures OneLine(FILE_NAME_LINE + n)
  {
  }

  lemma FileNameLineNotDelimiter(n: string)
    requires n != "" && Trimmed(n)
    ensures !IsDelimiter(FILE_NAME_LINE + n)
  {
    var line := FILE_NAME_LINE + n;
    assert line[|line| - 1] == n[|n| - 1];
    TrimmedStrip(line);
  }

  lemma LinesOfSection(s: Section)
    requires PlainName(s.fileName)
    ensures LinesOf(SectionText(s)) == [FILE_NAME_LINE + s.fileName] + LinesOf(RStrip(s.content))
  {
    PlainNameIsWord(s.fileName);
    FileNameLineOneLine(s.fileName);
    hide SplitLines, OneLine, RStrip, FILE_NAME_LINE;
    var line, body := FILE_NAME_LINE + s.fileName, RStrip(s.content);
    assert SectionText(s) + "\n" == line + "\n" + (body + "\n");
    SplitLinesAtNewline(line, body + "\n");
    SplitOneLine(line);
  }

  /** The parser finds the file name of an exported section. */
  lemma FileNameRecovered(s: Section)
    requires PlainName(s.fileName)
    ensures FirstFileName(SplitLines(Normalized(SectionText(s)))) == s.fileName
  {
    PlainNameIsWord(s.fileName);
    FileNameLine(s.fileName);
    FileNameLineOneLine(s.fileName);
    LinesOfSection(s);
    hide SplitLines, OneLine, Strip, FileNameIn;
    var line, rest := FILE_NAME_LINE + s.fileName, LinesOf(RStrip(s.content));
    SplitNonEmpty(RStrip(s.content) + "\n");
    assert ([line] + rest)[1..] == rest;
    assert Normalized(SectionText(s)) == line + "\n" + Join("\n", rest);
    SplitLinesAtNewline(line, Join("\n", rest));
    SplitOneLine(line);
  }

  /** The rendered text of s has no line that reads "---". */
  predicate ContentDelimiterFree(s: Section) {
    DelimiterFree(LinesOf(RStrip(s.content)))
  }

  lemma SectionDelimiterFreeIff(s: Section)
    requires PlainName(s.fileName)
    ensures DelimiterFree(LinesOf(SectionText(s))) <==> ContentDelimiterFree(s)
  {
    PlainNameIsWord(s.fileName);
    FileNameLineNotDelimiter(s.fileName);
    LinesOfSection(s);
    hide IsDelimiter, SplitLines, OneLine;
    var lines, rest := LinesOf(SectionText(s)), LinesOf(RStrip(s.content));
    assert forall i :: 1 <= i < |lines| ==> lines[i] == rest[i - 1];
    if DelimiterFree(lines) {
      forall i | 0 <= i < |rest| ensures !IsDelimiter(rest[i]) { assert rest[i] == lines[i + 1]; }
    }
  }

  /** Splitting an exported bundle recovers the exported sections, in order and with their file names,
      exactly when no rendered text has a line reading "---". */
  lemma BundleRoundTrip(sections: seq<Section>)
    requires sections != [] && forall i :: 0 <= i < |sections| ==> PlainName(sections[i].fileName)
    ensures Sections(Bundle(Texts(sections))) == NormalizedAll(Texts(sections))
       <==> forall i :: 0 <= i < |sections| ==> ContentDelimiterFree(sections[i])
    ensures forall i :: 0 <= i < |sections| ==>
              FirstFileName(SplitLines(NormalizedAll(Texts(sections))[i])) == sections[i].fileName
    ensures forall i :: 0 <= i < |sections| && NewlineOnly(Texts(sections)[i]) ==>
              NormalizedAll(Texts(sections))[i] == Texts(sections)[i]
  {
    CutRecoversIff(Texts(sections));
    forall i | 0 <= i < |sections|
      ensures DelimiterFree(LinesOf(Texts(sections)[i])) <==> ContentDelimiterFree(sections[i])
      ensures FirstFileName(SplitLines(NormalizedAll(Texts(sections))[i])) == sections[i].fileName
      ensures NewlineOnly(Texts(sections)[i]) ==> NormalizedAll(Texts(sections))[i] == Texts(sections)[i]
    {
      SectionDelimiterFreeIff(sections[i]);
      FileNameRecovered(sections[i]);
      if NewlineOnly(Texts(sections)[i]) { NormalizedSame(Texts(sections)[i]); }
    }
  }
}

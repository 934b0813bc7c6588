/** What the output files contain: the bulk rewrite and the line-by-line appends give
    the same files, and the files partition the alive proxies as their names say. */
module FileSets {
  import opened Text
  import opened Exporter

  // ----- Appending and rewriting -----

  /** Everything WriteAlive writes for one proxy. */
  function Written(cfg: Config, p: Record): seq<Emission> {
    Emissions(cfg, p) + Extras(cfg, p)
  }

  /** Writing proxies one by one, as the pipeline does. */
  function WriteEach(cfg: Config, disk: Disk, ps: seq<Record>): Disk {
    if ps == [] then disk
    else AppendAll(WriteEach(cfg, disk, ps[..|ps| - 1]), Written(cfg, ps[|ps| - 1]))
  }

  lemma {:induction false} LinesConcat(a: seq<Emission>, b: seq<Emission>, file: string)
    ensures LinesFor(a + b, file) == LinesFor(a, file) + LinesFor(b, file)
    decreases |b|
  {
    if b == [] {
      assert a + b == a;
    } else {
      LinesConcat(a, b[..|b| - 1], file);
      assert (a + b)[..|a + b| - 1] == a + b[..|b| - 1];
    }
  }

  function One(condition: bool, line: string): seq<string> {
    if condition then [line] else []
  }

  lemma RenderOne(lines: seq<string>, line: string)
    ensures Render(lines + [line]) == Render(lines) + line + "\n"
  {
    assert (lines + [line])[..|lines|] == lines;
  }

  lemma {:induction false} AppendedContent(disk: Disk, es: seq<Emission>, file: string)
    ensures Content(AppendAll(disk, es), file) == Content(disk, file) + Render(LinesFor(es, file))
    ensures file in AppendAll(disk, es) <==> file in disk || LinesFor(es, file) != []
  {
    if es == [] {
    } else {
      var before, e := es[..|es| - 1], es[|es| - 1];
      AppendedContent(disk, before, file);
      AppendedOne(AppendAll(disk, before), Content(disk, file), LinesFor(before, file), e, file);
    }
  }

  /** One append to a disk on which `lines` have been added to a file. */
  lemma AppendedOne(disk: Disk, content: string, lines: seq<string>, e: Emission, file: string)
    requires Content(disk, file) == content + Render(lines)
    ensures Content(Append(disk, e), file) == content + Render(lines + if e.file == file then [e.line] else [])
  {
    if e.file == file {
      RenderOne(lines, e.line);
      assert content + Render(lines) + e.line + "\n" == content + (Render(lines) + e.line + "\n");
    } else {
      assert lines + [] == lines;
    }
  }

  lemma {:induction false} GroupIsLines(es: seq<Emission>, file: string)
    ensures file in Group(es) <==> LinesFor(es, file) != []
    ensures file in Group(es) ==> Group(es)[file] == LinesFor(es, file)
  {
    if es != [] {
      GroupIsLines(es[..|es| - 1], file);
    }
  }

  predicate IsTextFile(file: string) {
    |file| >= 4 && file[|file| - 4..] == ".txt"
  }

  lemma ExtrasAreNotText(cfg: Config, p: Record, file: string)
    requires IsTextFile(file)
    ensures LinesFor(Written(cfg, p), file) == LinesFor(Emissions(cfg, p), file)
  {
    NoTextInExtras(cfg, p, file);
    LinesWithNothing(Emissions(cfg, p), Extras(cfg, p), file);
  }

  lemma LinesWithNothing(es: seq<Emission>, more: seq<Emission>, file: string)
    requires LinesFor(more, file) == []
    ensures LinesFor(es + more, file) == LinesFor(es, file)
  {
    LinesConcat(es, more, file);
  }

  lemma ExtraNames(file: string)
    requires IsTextFile(file)
    ensures file != "proxies.jsonl" && file != "proxies.csv"
  {
    assert "proxies.jsonl"[9..] == "sonl" && "proxies.csv"[7..] == ".csv";
  }

  lemma NoTextInExtras(cfg: Config, p: Record, file: string)
    requires IsTextFile(file)
    ensures LinesFor(Extras(cfg, p), file) == []
  {
    ExtraNames(file);
    var json, csv := Rule(cfg.saveJSON, "proxies.jsonl", cfg.toJSON(p)), Rule(cfg.saveCSV, "proxies.csv", cfg.toCSV(p));
    LinesConcat(Filed(json), Filed(csv), file);
    LinesOfRule(json, file);
    LinesOfRule(csv, file);
  }

  /** What a single rule writes to a file. */
  function RuleLine(rule: Rule, file: string): seq<string> {
    One(rule.applies && rule.file == file, rule.line)
  }

  /** If at most one rule can write to a file, the file gets that rule's line. */
  lemma {:induction false} OnlyRule(rules: seq<Rule>, k: nat, file: string)
    requires forall j :: 0 <= j < |rules| && j != k ==> RuleLine(rules[j], file) == []
    ensures LinesFor(FiledAll(rules), file) == if k < |rules| then RuleLine(rules[k], file) else []
  {
    if rules != [] {
      var n := |rules| - 1;
      OnlyRule(rules[..n], k, file);
      LinesConcat(FiledAll(rules[..n]), Filed(rules[n]), file);
      LinesOfRule(rules[n], file);
    }
  }

  lemma LinesOfRule(rule: Rule, file: string)
    ensures LinesFor(Filed(rule), file) == RuleLine(rule, file)
  {
    if rule.applies {
      assert Filed(rule)[..0] == [];
    }
  }

  lemma SuffixIsText(stem: string)
    ensures IsTextFile(stem + ".txt")
  {
  }

  const FIXED := ["alive.txt", "alive_url.txt", "elite.txt", "socks5_elite.txt", "fast.txt", "high_quality.txt"]

  /** The file of each rule. */
  function NameOf(p: Record, j: nat): string
    requires j < 9
  {
    if j < 2 then FIXED[j] else if j == 2 then p.protocol + ".txt" else if j < 7 then FIXED[j - 1]
    else if j == 7 then CountryFile(p.countryCode) else CountryProtocolFile(p.countryCode, p.protocol)
  }

  predicate Named(rules: seq<Rule>, p: Record) {
    |rules| == 9 && forall j :: 0 <= j < 9 ==> rules[j].file == NameOf(p, j)
  }

  lemma RulesAreNamed(cfg: Config, p: Record)
    ensures Named(Rules(cfg, p), p)
  {
  }

  lemma NamesAreText(p: Record)
    ensures forall j :: 0 <= j < 9 ==> IsTextFile(NameOf(p, j))
  {
    SuffixIsText(p.protocol);
    SuffixIsText("countries/" + p.countryCode);
    SuffixIsText("countries/" + (p.countryCode + "_" + p.protocol));
    assert "alive.txt"[5..] == "alive_url.txt"[9..] == "elite.txt"[5..] == "socks5_elite.txt"[12..] == "fast.txt"[4..]
        == "high_quality.txt"[12..] == ".txt";
  }

  lemma RulesAreText(cfg: Config, p: Record)
    ensures forall k :: 0 <= k < |Rules(cfg, p)| ==> IsTextFile(Rules(cfg, p)[k].file)
  {
    RulesAreNamed(cfg, p);
    NamesAreText(p);
  }

  lemma OnlyTextFiles(cfg: Config, p: Record, file: string)
    requires LinesFor(Emissions(cfg, p), file) != []
    ensures IsTextFile(file)
  {
    if !IsTextFile(file) {
      RulesAreText(cfg, p);
      OnlyRule(Rules(cfg, p), |Rules(cfg, p)|, file);
    }
  }

  lemma {:induction false} AllTextFiles(cfg: Config, ps: seq<Record>, file: string)
    requires LinesFor(AllEmissions(cfg, ps), file) != []
    ensures IsTextFile(file)
  {
    if ps != [] {
      var before, p := ps[..|ps| - 1], ps[|ps| - 1];
      LinesConcat(AllEmissions(cfg, before), Emissions(cfg, p), file);
      if LinesFor(AllEmissions(cfg, before), file) != [] {
        AllTextFiles(cfg, before, file);
      } else {
        OnlyTextFiles(cfg, p, file);
      }
    }
  }

  lemma OneMoreWritten(cfg: Config, disk: Disk, before: seq<Record>, p: Record, file: string)
    ensures Content(WriteEach(cfg, disk, before + [p]), file)
      == Content(WriteEach(cfg, disk, before), file) + Render(LinesFor(Written(cfg, p), file))
  {
    assert (before + [p])[..|before|] == before;
    AppendedContent(WriteEach(cfg, disk, before), Written(cfg, p), file);
  }

  lemma OneMoreListed(cfg: Config, before: seq<Record>, p: Record, file: string)
    requires IsTextFile(file)
    ensures LinesFor(AllEmissions(cfg, before + [p]), file)
      == LinesFor(AllEmissions(cfg, before), file) + LinesFor(Written(cfg, p), file)
  {
    ExtrasAreNotText(cfg, p, file);
    AllEmissionsGrow(cfg, before, p);
    LinesConcat(AllEmissions(cfg, before), Emissions(cfg, p), file);
  }

  /** Appending proxies one by one adds each one's lines to each text file, in order. */
  lemma IncrementalContent(cfg: Config, disk: Disk, ps: seq<Record>, file: string)
    requires IsTextFile(file)
    ensures Content(WriteEach(cfg, disk, ps), file) == Content(disk, file) + Render(LinesFor(AllEmissions(cfg, ps), file))
  {
    var content := Content(disk, file);
    var written := (qs: seq<Record>) => Content(WriteEach(cfg, disk, qs), file);
    var listed := (qs: seq<Record>) => content + Render(LinesFor(AllEmissions(cfg, qs), file));
    var step := (s: string, p: Record) => s + Render(LinesFor(Written(cfg, p), file));
    forall before, p {:trigger before + [p]} | true
      ensures written(before + [p]) == step(written(before), p) && listed(before + [p]) == step(listed(before), p)
    {
      OneMoreWritten(cfg, disk, before, p, file);
      OneMoreRendered(cfg, content, before, p, file);
    }
    NothingWritten(cfg, disk, file);
    SameFold(ps, Everyone, written, listed, step);
  }

  lemma NothingWritten(cfg: Config, disk: Disk, file: string)
    ensures Content(WriteEach(cfg, disk, []), file)
      == Content(disk, file) + Render(LinesFor(AllEmissions(cfg, []), file))
  {
    assert Content(disk, file) + "" == Content(disk, file);
  }

  lemma OneMoreRendered(cfg: Config, content: string, before: seq<Record>, p: Record, file: string)
    requires IsTextFile(file)
    ensures content + Render(LinesFor(AllEmissions(cfg, before + [p]), file))
      == content + Render(LinesFor(AllEmissions(cfg, before), file)) + Render(LinesFor(Written(cfg, p), file))
  {
    OneMoreListed(cfg, before, p, file);
    RenderedAfter(content, LinesFor(AllEmissions(cfg, before), file), LinesFor(Written(cfg, p), file));
  }

  /** Two measures of a list that start alike and grow alike are alike. */
  lemma {:induction false} SameFold<T>(ps: seq<Record>, ok: Record -> bool, f: seq<Record> -> T, g: seq<Record> -> T,
                                       step: (T, Record) -> T)
    requires f([]) == g([]) && forall i :: 0 <= i < |ps| ==> ok(ps[i])
    requires forall before, p {:trigger before + [p]} :: ok(p) ==>
      f(before + [p]) == step(f(before), p) && g(before + [p]) == step(g(before), p)
    ensures f(ps) == g(ps)
  {
    if ps != [] {
      SameFold(ps[..|ps| - 1], ok, f, g, step);
      assert ps == ps[..|ps| - 1] + [ps[|ps| - 1]];
    }
  }

  /** The rewrite of a list leaves in each file it touches exactly what writing its
      alive proxies one by one into empty files would, and leaves every other file alone. */
  lemma BulkEqualsIncremental(cfg: Config, disk: Disk, ps: seq<Record>, file: string)
    ensures var es := AllEmissions(cfg, Alive(ps));
            var after := Rewritten(disk, es);
            if LinesFor(es, file) != [] then
              file in after && after[file] == Content(WriteEach(cfg, map[], Alive(ps)), file)
            else
              (file in after <==> file in disk) && (file in disk ==> after[file] == disk[file])
  {
    var es := AllEmissions(cfg, Alive(ps));
    GroupIsLines(es, file);
    if LinesFor(es, file) != [] {
      AllTextFiles(cfg, Alive(ps), file);
      IncrementalContent(cfg, map[], Alive(ps), file);
      FileContentIsRender(LinesFor(es, file));
    }
  }

  /** Some proxy that is kept has a line for `file`. */
  ghost predicate SomeFiled(ps: seq<Record>, keep: Record -> bool, emit: Record -> seq<Emission>, file: string) {
    exists i :: 0 <= i < |ps| && keep(ps[i]) && LinesFor(emit(ps[i]), file) != []
  }

  lemma SomeFiledGrows(before: seq<Record>, p: Record, keep: Record -> bool, emit: Record -> seq<Emission>, file: string)
    ensures SomeFiled(before + [p], keep, emit, file)
      <==> SomeFiled(before, keep, emit, file) || (keep(p) && LinesFor(emit(p), file) != [])
  {
    var ps := before + [p];
    assert ps[|before|] == p;
    if SomeFiled(before, keep, emit, file) {
      var i :| 0 <= i < |before| && keep(before[i]) && LinesFor(emit(before[i]), file) != [];
      assert ps[i] == before[i];
    }
  }

  lemma {:induction false} FiledIff(ps: seq<Record>, keep: Record -> bool, emit: Record -> seq<Emission>, file: string)
    ensures LinesFor(EmitAll(Select(ps, keep), emit), file) != [] <==> SomeFiled(ps, keep, emit, file)
  {
    if ps != [] {
      var before, p := ps[..|ps| - 1], ps[|ps| - 1];
      assert ps == before + [p];
      FiledIff(before, keep, emit, file);
      SomeFiledGrows(before, p, keep, emit, file);
      if keep(p) {
        var selected := Select(before, keep);
        assert (selected + [p])[..|selected|] == selected;
        LinesConcat(EmitAll(selected, emit), emit(p), file);
      } else {
        assert Select(ps, keep) == Select(before, keep);
      }
    }
  }

  /** Some alive proxy of the list has a line for `file`. */
  ghost predicate SomeAliveFiled(cfg: Config, ps: seq<Record>, file: string) {
    SomeFiled(ps, (p: Record) => p.alive, (p: Record) => Emissions(cfg, p), file)
  }

  /** When the rewrite leaves a file as a rebuild from empty files would: exactly if some alive
      proxy belongs in it, or there was nothing in it. */
  lemma RewriteIsRebuildIff(cfg: Config, disk: Disk, ps: seq<Record>, file: string)
    ensures var es := AllEmissions(cfg, Alive(ps));
      Content(Rewritten(disk, es), file) == Content(Rewritten(map[], es), file)
      <==> SomeAliveFiled(cfg, ps, file) || Content(disk, file) == ""
  {
    BulkEqualsIncremental(cfg, disk, ps, file);
    BulkEqualsIncremental(cfg, map[], ps, file);
    FiledIff(ps, (p: Record) => p.alive, (p: Record) => Emissions(cfg, p), file);
  }

  lemma UntouchedFile(cfg: Config, disk: Disk, ps: seq<Record>, file: string)
    requires LinesFor(AllEmissions(cfg, Alive(ps)), file) == []
    ensures Content(Rewritten(disk, AllEmissions(cfg, Alive(ps))), file) == Content(disk, file)
  {
    BulkEqualsIncremental(cfg, disk, ps, file);
  }

  lemma SelectOne(p: Record, keep: Record -> bool)
    ensures Select([p], keep) == if keep(p) then [p] else []
  {
    assert [p][..0] == [];
  }

  lemma EliteAlone(cfg: Config, p: Record)
    requires Supported(p)
    ensures LinesFor(AllEmissions(cfg, [p]), "elite.txt") == One(p.anonymity == ELITE, p.Address())
  {
    EliteFileLists(cfg, [p]);
    SelectOne(p, (q: Record) => q.anonymity == ELITE);
    assert Addresses([p]) == [p.Address()] by { LinesAt([p], (q: Record) => q.Address()); }
  }

  /** A proxy that was elite and is found alive but no longer elite, the only one there is, stays
      in elite.txt. */
  lemma StaleLineStays(cfg: Config, p: Record, now: Record)
    requires Supported(p) && p.alive && p.anonymity == ELITE && now == p.(anonymity := now.anonymity)
    requires now.anonymity != ELITE
    ensures var before, es := WriteEach(cfg, map[], [p]), AllEmissions(cfg, Alive([now]));
      && Content(Rewritten(before, es), "elite.txt") == p.Address() + "\n"
      && Content(Rewritten(map[], es), "elite.txt") == ""
  {
    assert "elite.txt"[5..] == ".txt";
    EliteAlone(cfg, p);
    EliteAlone(cfg, now);
    SelectOne(now, (q: Record) => q.alive);
    IncrementalContent(cfg, map[], [p], "elite.txt");
    UntouchedFile(cfg, WriteEach(cfg, map[], [p]), [now], "elite.txt");
    UntouchedFile(cfg, map[], [now], "elite.txt");
    RenderOne([], p.Address());
  }

  /** The two files that only WriteAlive writes: one JSON line, one CSV line for each proxy, in
      order, if they are asked for; the rewrite never touches them. */
  lemma ExtraFilesList(cfg: Config, disk: Disk, ps: seq<Record>)
    ensures Content(WriteEach(cfg, disk, ps), "proxies.jsonl")
      == Content(disk, "proxies.jsonl") + Render(if cfg.saveJSON then Lines(ps, cfg.toJSON) else [])
    ensures Content(WriteEach(cfg, disk, ps), "proxies.csv")
      == Content(disk, "proxies.csv") + Render(if cfg.saveCSV then Lines(ps, cfg.toCSV) else [])
  {
    forall p
      ensures LinesFor(Written(cfg, p), "proxies.jsonl") == One(cfg.saveJSON, cfg.toJSON(p))
      ensures LinesFor(Written(cfg, p), "proxies.csv") == One(cfg.saveCSV, cfg.toCSV(p))
    {
      ExtraLines(cfg, p);
    }
    ExtraFileLists(cfg, disk, ps, "proxies.jsonl", cfg.saveJSON, cfg.toJSON);
    ExtraFileLists(cfg, disk, ps, "proxies.csv", cfg.saveCSV, cfg.toCSV);
  }

  lemma ExtraFileLists(cfg: Config, disk: Disk, ps: seq<Record>, file: string, saved: bool, line: Record -> string)
    requires forall p :: LinesFor(Written(cfg, p), file) == One(saved, line(p))
    ensures Content(WriteEach(cfg, disk, ps), file) == Content(disk, file) + Render(if saved then Lines(ps, line) else [])
  {
    var content := Content(disk, file);
    forall before, p {:trigger before + [p]} | true
      ensures WrittenTo(cfg, disk, file)(before + [p]) == LineAdded(saved, line)(WrittenTo(cfg, disk, file)(before), p)
      ensures ListedIf(content, saved, line)(before + [p]) == LineAdded(saved, line)(ListedIf(content, saved, line)(before), p)
    {
      OneMoreWritten(cfg, disk, before, p, file);
      OneMoreLine(content, before, p, saved, line);
    }
    assert content + "" == content;
    SameFold(ps, Everyone, WrittenTo(cfg, disk, file), ListedIf(content, saved, line), LineAdded(saved, line));
  }

  function WrittenTo(cfg: Config, disk: Disk, file: string): seq<Record> -> string {
    (ps: seq<Record>) => Content(WriteEach(cfg, disk, ps), file)
  }

  function ListedIf(content: string, saved: bool, line: Record -> string): seq<Record> -> string {
    (ps: seq<Record>) => content + Render(if saved then Lines(ps, line) else [])
  }

  function LineAdded(saved: bool, line: Record -> string): (string, Record) -> string {
    (s: string, p: Record) => s + Render(One(saved, line(p)))
  }

  lemma OneMoreLine(content: string, before: seq<Record>, p: Record, saved: bool, line: Record -> string)
    ensures content + Render(if saved then Lines(before + [p], line) else [])
      == content + Render(if saved then Lines(before, line) else []) + Render(One(saved, line(p)))
  {
    assert (before + [p])[..|before|] == before;
    var lines := if saved then Lines(before, line) else [];
    RenderedAfter(content, lines, One(saved, line(p)));
    assert (if saved then Lines(before + [p], line) else []) == lines + One(saved, line(p));
  }

  lemma RenderedAfter(content: string, a: seq<string>, b: seq<string>)
    ensures content + Render(a + b) == content + Render(a) + Render(b)
  {
    RenderSplit(a, b);
    assert content + (Render(a) + Render(b)) == content + Render(a) + Render(b);
  }

  lemma LinesFiled(rule: Rule, file: string)
    ensures LinesFor(Filed(rule), file) == One(rule.applies && rule.file == file, rule.line)
  {
    if rule.applies { assert Filed(rule)[..0] == []; }
  }

  lemma ExtraLines(cfg: Config, p: Record)
    ensures LinesFor(Written(cfg, p), "proxies.jsonl") == One(cfg.saveJSON, cfg.toJSON(p))
    ensures LinesFor(Written(cfg, p), "proxies.csv") == One(cfg.saveCSV, cfg.toCSV(p))
  {
    assert "proxies.jsonl"[|"proxies.jsonl"| - 4..] == "sonl" && "proxies.csv"[|"proxies.csv"| - 4..] == ".csv";
    assert |"proxies.jsonl"| != |"proxies.csv"|;
    ExtraLine(cfg, p, "proxies.jsonl");
    ExtraLine(cfg, p, "proxies.csv");
  }

  lemma ExtraLine(cfg: Config, p: Record, file: string)
    requires !IsTextFile(file)
    ensures LinesFor(Written(cfg, p), file)
      == One(cfg.saveJSON && "proxies.jsonl" == file, cfg.toJSON(p)) + One(cfg.saveCSV && "proxies.csv" == file, cfg.toCSV(p))
  {
    LinesConcat(Emissions(cfg, p), Extras(cfg, p), file);
    if LinesFor(Emissions(cfg, p), file) != [] { OnlyTextFiles(cfg, p, file); }
    var json, csv := Rule(cfg.saveJSON, "proxies.jsonl", cfg.toJSON(p)), Rule(cfg.saveCSV, "proxies.csv", cfg.toCSV(p));
    LinesConcat(Filed(json), Filed(csv), file);
    LinesFiled(json, file);
    LinesFiled(csv, file);
  }

  /** A proxy written after a rewrite extends each rewritten file as if every proxy had
      been written one by one from empty files. */
  lemma AppendAfterRewrite(cfg: Config, disk: Disk, ps: seq<Record>, p: Record, file: string)
    requires LinesFor(AllEmissions(cfg, Alive(ps)), file) != []
    ensures var after := AppendAll(Rewritten(disk, AllEmissions(cfg, Alive(ps))), Written(cfg, p));
            file in after && after[file] == Content(WriteEach(cfg, map[], Alive(ps) + [p]), file)
  {
    BulkEqualsIncremental(cfg, disk, ps, file);
    AppendedContent(Rewritten(disk, AllEmissions(cfg, Alive(ps))), Written(cfg, p), file);
    OneMoreWritten(cfg, map[], Alive(ps), p, file);
  }

  // ----- Which proxies each file lists -----

  const PROTOCOLS := [HTTP, HTTPS, SOCKS4, SOCKS4A, SOCKS5]

  predicate Supported(p: Record) {
    p.protocol in PROTOCOLS
  }

  ghost predicate AllSupported(ps: seq<Record>) {
    forall i :: 0 <= i < |ps| ==> Supported(ps[i])
  }

  /** Supported, with a country code without an underscore, as ISO codes are: only the files
      of a country and a protocol need it. */
  predicate Ordinary(p: Record) {
    Supported(p) && '_' !in p.countryCode
  }

  ghost predicate AllOrdinary(ps: seq<Record>) {
    forall i :: 0 <= i < |ps| ==> Ordinary(ps[i])
  }

  function Lines(ps: seq<Record>, line: Record -> string): seq<string> {
    if ps == [] then [] else Lines(ps[..|ps| - 1], line) + [line(ps[|ps| - 1])]
  }

  lemma {:induction false} LinesAt(ps: seq<Record>, line: Record -> string)
    ensures |Lines(ps, line)| == |ps|
    ensures forall i :: 0 <= i < |ps| ==> Lines(ps, line)[i] == line(ps[i])
  {
    if ps != [] {
      LinesAt(ps[..|ps| - 1], line);
    }
  }

  function Addresses(ps: seq<Record>): seq<string> {
    Lines(ps, (p: Record) => p.Address())
  }

  function OfProtocol(ps: seq<Record>, protocol: string): seq<Record> {
    Select(ps, (p: Record) => p.protocol == protocol)
  }

  lemma SelectedLinesGrow(ps: seq<Record>, p: Record, keep: Record -> bool, line: Record -> string)
    ensures Lines(Select(ps + [p], keep), line) == Lines(Select(ps, keep), line) + One(keep(p), line(p))
  {
    assert (ps + [p])[..|ps|] == ps;
    var selected := Select(ps, keep);
    if keep(p) {
      assert Select(ps + [p], keep) == selected + [p];
      assert (selected + [p])[..|selected|] == selected;
    } else {
      assert Select(ps + [p], keep) == selected;
    }
  }

  /** If each proxy puts its line into a file or not, the file lists the ones that do. */
  lemma {:induction false} FileLists(ps: seq<Record>, emit: Record -> seq<Emission>, file: string, keep: Record -> bool,
                                     line: Record -> string)
    requires forall i :: 0 <= i < |ps| ==> LinesFor(emit(ps[i]), file) == One(keep(ps[i]), line(ps[i]))
    ensures LinesFor(EmitAll(ps, emit), file) == Lines(Select(ps, keep), line)
  {
    if ps != [] {
      var before, p := ps[..|ps| - 1], ps[|ps| - 1];
      FileLists(before, emit, file, keep, line);
      LinesConcat(EmitAll(before, emit), emit(p), file);
      assert ps == before + [p];
      SelectedLinesGrow(before, p, keep, line);
    }
  }

  /** No protocol file is one of the fixed files, and no country file is either of these. */
  lemma NamesApart(p: Record, file: string)
    requires p.protocol in PROTOCOLS
    ensures file in FIXED ==> p.protocol + ".txt" != file
    ensures forall code :: CountryFile(code) != file || file !in FIXED
    ensures forall code :: CountryFile(code) != p.protocol + ".txt"
  {
    assert p.protocol in {HTTP, HTTPS, SOCKS4, SOCKS4A, SOCKS5};
    var name := p.protocol + ".txt";
    assert name[0] == p.protocol[0] && |name| <= 11 && name[0] in {'h', 's'};
    assert forall code :: CountryFile(code)[0] == 'c';
  }

  lemma FixedNamesApart(p: Record, k: nat)
    requires p.protocol in PROTOCOLS && k in {0, 1, 3, 4, 5, 6}
    ensures forall j :: 0 <= j < 9 && j != k ==> NameOf(p, j) != NameOf(p, k)
  {
    NamesApart(p, NameOf(p, k));
  }

  lemma FixedRuleLines(rules: seq<Rule>, p: Record, k: nat)
    requires Named(rules, p) && p.protocol in PROTOCOLS && k in {0, 1, 3, 4, 5, 6}
    ensures LinesFor(FiledAll(rules), rules[k].file) == One(rules[k].applies, rules[k].line)
  {
    FixedNamesApart(p, k);
    OnlyRule(rules, k, rules[k].file);
  }

  lemma FixedFile(cfg: Config, p: Record, k: nat)
    requires p.protocol in PROTOCOLS && k in {0, 1, 3, 4, 5, 6}
    ensures var rule := Rules(cfg, p)[k];
            LinesFor(Emissions(cfg, p), rule.file) == One(rule.applies, rule.line)
  {
    RulesAreNamed(cfg, p);
    FixedRuleLines(Rules(cfg, p), p, k);
  }

  lemma ProtocolNamesApart(p: Record, protocol: string)
    requires p.protocol in PROTOCOLS && protocol in PROTOCOLS
    ensures forall j :: 0 <= j < 9 && j != 2 ==> NameOf(p, j) != protocol + ".txt"
    ensures p.protocol + ".txt" == protocol + ".txt" <==> p.protocol == protocol
  {
    var q := p.(protocol := protocol);
    NamesApart(q, protocol + ".txt");
    forall j | j in {0, 1, 3, 4, 5, 6} ensures NameOf(p, j) != protocol + ".txt" {
      NamesApart(q, NameOf(p, j));
    }
    assert (p.protocol + ".txt")[..|p.protocol|] == p.protocol;
    assert (protocol + ".txt")[..|protocol|] == protocol;
  }

  lemma ProtocolRuleLines(rules: seq<Rule>, p: Record, protocol: string)
    requires Named(rules, p) && p.protocol in PROTOCOLS && protocol in PROTOCOLS
    ensures LinesFor(FiledAll(rules), protocol + ".txt") == One(rules[2].applies && p.protocol == protocol, rules[2].line)
  {
    ProtocolNamesApart(p, protocol);
    OnlyRule(rules, 2, protocol + ".txt");
  }

  lemma ProtocolRule(cfg: Config, p: Record)
    ensures Rules(cfg, p)[2].applies == cfg.splitByType && Rules(cfg, p)[2].line == p.Address()
  {
  }

  lemma ProtocolFile(cfg: Config, p: Record, protocol: string)
    requires p.protocol in PROTOCOLS && protocol in PROTOCOLS && cfg.splitByType
    ensures LinesFor(Emissions(cfg, p), protocol + ".txt") == One(p.protocol == protocol, p.Address())
  {
    RulesAreNamed(cfg, p);
    ProtocolRule(cfg, p);
    ProtocolRuleLines(Rules(cfg, p), p, protocol);
  }

  lemma CountryFileInjective(a: string, b: string)
    requires CountryFile(a) == CountryFile(b)
    ensures a == b
  {
    assert CountryFile(a)[10..|CountryFile(a)| - 4] == a;
    assert CountryFile(b)[10..|CountryFile(b)| - 4] == b;
  }

  lemma UnderscoreSplitUnique(a: string, b: string, x: string, y: string)
    requires a + "_" + b == x + "_" + y && '_' !in a && '_' !in x
    ensures a == x && b == y
  {
    var s := a + "_" + b;
    assert s[|a|] == '_' && s[|x|] == '_';
    assert s[..|a|] == a && s[..|x|] == x;
    assert s[|a| + 1..] == b && s[|x| + 1..] == y;
  }

  lemma FixedAreNotCountries(p: Record, code: string)
    requires p.protocol in PROTOCOLS
    ensures forall j :: 0 <= j < 7 ==> NameOf(p, j) != CountryFile(code)
  {
    NamesApart(p, CountryFile(code));
    assert forall j :: 0 <= j < 7 && j != 2 ==> NameOf(p, j) in FIXED;
  }

  lemma CountryNamesApart(p: Record, code: string)
    requires Supported(p) && '_' !in code
    ensures forall j :: 0 <= j < 9 && j != 7 ==> NameOf(p, j) != CountryFile(code)
    ensures NameOf(p, 7) == CountryFile(code) <==> p.countryCode == code
  {
    FixedAreNotCountries(p, code);
    var both := p.countryCode + "_" + p.protocol;
    assert both[|p.countryCode|] == '_';
    if CountryFile(both) == CountryFile(code) {
      CountryFileInjective(both, code);
    }
    if CountryFile(p.countryCode) == CountryFile(code) {
      CountryFileInjective(p.countryCode, code);
    }
  }

  lemma CountryProtocolNamesApart(p: Record, code: string, protocol: string)
    requires Ordinary(p) && '_' !in code
    ensures forall j :: 0 <= j < 8 ==> NameOf(p, j) != CountryProtocolFile(code, protocol)
    ensures NameOf(p, 8) == CountryProtocolFile(code, protocol) <==> p.countryCode == code && p.protocol == protocol
  {
    var mine, both := p.countryCode + "_" + p.protocol, code + "_" + protocol;
    FixedAreNotCountries(p, both);
    assert both[|code|] == '_';
    if CountryFile(p.countryCode) == CountryFile(both) {
      CountryFileInjective(p.countryCode, both);
    }
    if CountryFile(mine) == CountryFile(both) {
      CountryFileInjective(mine, both);
      UnderscoreSplitUnique(p.countryCode, p.protocol, code, protocol);
    }
  }

  lemma CountryRuleLines(rules: seq<Rule>, p: Record, code: string)
    requires Named(rules, p) && Supported(p) && '_' !in code
    ensures LinesFor(FiledAll(rules), CountryFile(code)) == One(rules[7].applies && p.countryCode == code, rules[7].line)
  {
    CountryNamesApart(p, code);
    OnlyRule(rules, 7, CountryFile(code));
  }

  lemma CountryProtocolRuleLines(rules: seq<Rule>, p: Record, code: string, protocol: string)
    requires Named(rules, p) && Ordinary(p) && '_' !in code
    ensures LinesFor(FiledAll(rules), CountryProtocolFile(code, protocol))
         == One(rules[8].applies && p.countryCode == code && p.protocol == protocol, rules[8].line)
  {
    CountryProtocolNamesApart(p, code, protocol);
    OnlyRule(rules, 8, CountryProtocolFile(code, protocol));
  }

  lemma CountryRules(cfg: Config, p: Record)
    ensures forall k :: k in {7, 8} ==>
      Rules(cfg, p)[k].applies == HasCountry(cfg, p) && Rules(cfg, p)[k].line == p.Address()
  {
  }

  lemma OneCountryFile(cfg: Config, p: Record, code: string)
    requires Supported(p) && '_' !in code
    ensures LinesFor(Emissions(cfg, p), CountryFile(code)) == One(HasCountry(cfg, p) && p.countryCode == code, p.Address())
  {
    RulesAreNamed(cfg, p);
    CountryRules(cfg, p);
    CountryRuleLines(Rules(cfg, p), p, code);
  }

  lemma OneCountryProtocolFile(cfg: Config, p: Record, code: string, protocol: string)
    requires Ordinary(p) && '_' !in code
    ensures LinesFor(Emissions(cfg, p), CountryProtocolFile(code, protocol))
         == One(HasCountry(cfg, p) && p.countryCode == code && p.protocol == protocol, p.Address())
  {
    RulesAreNamed(cfg, p);
    CountryRules(cfg, p);
    CountryProtocolRuleLines(Rules(cfg, p), p, code, protocol);
  }

  // ----- The files of a list of proxies -----

  predicate Everyone(p: Record) {
    true
  }

  lemma AliveRule(cfg: Config)
    ensures forall p :: Rules(cfg, p)[0] == Rule(Everyone(p), "alive.txt", ((q: Record) => q.Address())(p))
  {
  }

  lemma AliveUrlRule(cfg: Config)
    ensures forall p :: Rules(cfg, p)[1] == Rule(Everyone(p), "alive_url.txt", ((q: Record) => q.URLString())(p))
  {
  }

  /** alive.txt lists every proxy, in order. */
  lemma AliveFileLists(cfg: Config, ps: seq<Record>)
    requires AllSupported(ps)
    ensures LinesFor(AllEmissions(cfg, ps), "alive.txt") == Addresses(ps)
  {
    AliveRule(cfg);
    FixedFileLists(cfg, ps, 0, "alive.txt", Everyone, (p: Record) => p.Address());
    SelectAll(ps, Everyone);
  }

  /** alive_url.txt lists every proxy as a URL, in order. */
  lemma AliveUrlFileLists(cfg: Config, ps: seq<Record>)
    requires AllSupported(ps)
    ensures LinesFor(AllEmissions(cfg, ps), "alive_url.txt") == Lines(ps, (p: Record) => p.URLString())
  {
    AliveUrlRule(cfg);
    FixedFileLists(cfg, ps, 1, "alive_url.txt", Everyone, (p: Record) => p.URLString());
    SelectAll(ps, Everyone);
  }

  /** alive.txt after writing each proxy in turn: one address per line, in order. */
  lemma AliveContent(cfg: Config, ps: seq<Record>)
    requires AllSupported(ps)
    ensures Content(WriteEach(cfg, map[], ps), "alive.txt") == Render(Addresses(ps))
  {
    assert "alive.txt"[5..] == ".txt";
    IncrementalContent(cfg, map[], ps, "alive.txt");
    AliveFileLists(cfg, ps);
  }

  /** alive_url.txt after writing each proxy in turn: one URL per line, in order. */
  lemma AliveUrlContent(cfg: Config, ps: seq<Record>)
    requires AllSupported(ps)
    ensures Content(WriteEach(cfg, map[], ps), "alive_url.txt") == Render(Lines(ps, (p: Record) => p.URLString()))
  {
    assert "alive_url.txt"[9..] == ".txt";
    IncrementalContent(cfg, map[], ps, "alive_url.txt");
    AliveUrlFileLists(cfg, ps);
  }

  /** elite.txt lists the elite proxies. */
  lemma EliteFileLists(cfg: Config, ps: seq<Record>)
    requires AllSupported(ps)
    ensures LinesFor(AllEmissions(cfg, ps), "elite.txt") == Addresses(Select(ps, (p: Record) => p.anonymity == ELITE))
  {
    FixedFileLists(cfg, ps, 3, "elite.txt", (p: Record) => p.anonymity == ELITE, (p: Record) => p.Address());
  }

  /** socks5_elite.txt lists the elite SOCKS5 proxies. */
  lemma SocksEliteFileLists(cfg: Config, ps: seq<Record>)
    requires AllSupported(ps)
    ensures LinesFor(AllEmissions(cfg, ps), "socks5_elite.txt")
         == Addresses(Select(ps, (p: Record) => p.anonymity == ELITE && p.protocol == SOCKS5))
  {
    FixedFileLists(cfg, ps, 4, "socks5_elite.txt", (p: Record) => p.anonymity == ELITE && p.protocol == SOCKS5,
                   (p: Record) => p.Address());
  }

  /** fast.txt and high_quality.txt list the proxies of at most 500 ms, and of score 80 or more. */
  lemma QualityFilesList(cfg: Config, ps: seq<Record>)
    requires AllSupported(ps)
    ensures LinesFor(AllEmissions(cfg, ps), "fast.txt") == Addresses(Select(ps, (p: Record) => 0 < p.latencyMs <= 500))
    ensures LinesFor(AllEmissions(cfg, ps), "high_quality.txt") == Addresses(Select(ps, (p: Record) => p.score >= 80))
  {
    FixedFileLists(cfg, ps, 5, "fast.txt", (p: Record) => 0 < p.latencyMs <= 500, (p: Record) => p.Address());
    FixedFileLists(cfg, ps, 6, "high_quality.txt", (p: Record) => p.score >= 80, (p: Record) => p.Address());
  }

  lemma FixedFileLists(cfg: Config, ps: seq<Record>, k: nat, file: string, keep: Record -> bool, line: Record -> string)
    requires AllSupported(ps) && k in {0, 1, 3, 4, 5, 6}
    requires forall p :: Rules(cfg, p)[k] == Rule(keep(p), file, line(p))
    ensures LinesFor(AllEmissions(cfg, ps), file) == Lines(Select(ps, keep), line)
  {
    forall i | 0 <= i < |ps| ensures LinesFor(Emissions(cfg, ps[i]), file) == One(keep(ps[i]), line(ps[i])) {
      FixedFile(cfg, ps[i], k);
    }
    FileLists(ps, (p: Record) => Emissions(cfg, p), file, keep, line);
  }

  lemma {:induction false} SelectAll(ps: seq<Record>, keep: Record -> bool)
    requires forall i :: 0 <= i < |ps| ==> keep(ps[i])
    ensures Select(ps, keep) == ps
  {
    if ps != [] {
      SelectAll(ps[..|ps| - 1], keep);
    }
  }

  /** With splitting by type, each protocol file lists the proxies of its protocol. */
  lemma ProtocolFileLists(cfg: Config, ps: seq<Record>, protocol: string)
    requires AllSupported(ps) && protocol in PROTOCOLS && cfg.splitByType
    ensures LinesFor(AllEmissions(cfg, ps), protocol + ".txt") == Addresses(OfProtocol(ps, protocol))
  {
    forall i | 0 <= i < |ps|
      ensures LinesFor(Emissions(cfg, ps[i]), protocol + ".txt") == One(ps[i].protocol == protocol, ps[i].Address())
    {
      ProtocolFile(cfg, ps[i], protocol);
    }
    FileLists(ps, (p: Record) => Emissions(cfg, p), protocol + ".txt", (p: Record) => p.protocol == protocol, (p: Record) => p.Address());
  }

  /** Five lists put together, with multiplicity. */
  function Union(a: seq<string>, b: seq<string>, c: seq<string>, d: seq<string>, e: seq<string>): multiset<string> {
    multiset(a) + multiset(b) + multiset(c) + multiset(d) + multiset(e)
  }

  /** The addresses of the five protocols together. */
  function ByProtocol(ps: seq<Record>): multiset<string> {
    Union(Addresses(OfProtocol(ps, HTTP)), Addresses(OfProtocol(ps, HTTPS)), Addresses(OfProtocol(ps, SOCKS4)),
          Addresses(OfProtocol(ps, SOCKS4A)), Addresses(OfProtocol(ps, SOCKS5)))
  }

  /** How often `x` is the address of a proxy of that protocol. */
  function Times(ps: seq<Record>, protocol: string, x: string): nat {
    if ps == [] then 0
    else
      var p := ps[|ps| - 1];
      Times(ps[..|ps| - 1], protocol, x) + Hit(p, protocol, x)
  }

  function Hit(p: Record, protocol: string, x: string): nat {
    if p.protocol == protocol && p.Address() == x then 1 else 0
  }

  lemma HitsOneProtocol(p: Record, x: string)
    requires Supported(p)
    ensures Hit(p, HTTP, x) + Hit(p, HTTPS, x) + Hit(p, SOCKS4, x) + Hit(p, SOCKS4A, x) + Hit(p, SOCKS5, x)
      == if p.Address() == x then 1 else 0
  {
    assert p.protocol in {HTTP, HTTPS, SOCKS4, SOCKS4A, SOCKS5};
  }

  lemma AddressesGrow(ps: seq<Record>, p: Record)
    ensures Addresses(ps + [p]) == Addresses(ps) + [p.Address()]
  {
    assert (ps + [p])[..|ps|] == ps;
  }

  lemma SelectedCounted(before: seq<Record>, p: Record, protocol: string, x: string)
    ensures multiset(Addresses(OfProtocol(before + [p], protocol)))[x]
      == multiset(Addresses(OfProtocol(before, protocol)))[x] + Hit(p, protocol, x)
  {
    SelectedLinesGrow(before, p, (q: Record) => q.protocol == protocol, (q: Record) => q.Address());
    CountedAfter(Addresses(OfProtocol(before, protocol)), p.protocol == protocol, p.Address(), x);
  }

  lemma CountedAfter(lines: seq<string>, condition: bool, line: string, x: string)
    ensures multiset(lines + One(condition, line))[x] == multiset(lines)[x] + if condition && line == x then 1 else 0
  {
  }

  function ListedOf(protocol: string, x: string): seq<Record> -> int {
    (ps: seq<Record>) => multiset(Addresses(OfProtocol(ps, protocol)))[x]
  }

  function TimesOf(protocol: string, x: string): seq<Record> -> int {
    (ps: seq<Record>) => Times(ps, protocol, x)
  }

  function AddingHit(protocol: string, x: string): (int, Record) -> int {
    (n: int, p: Record) => n + Hit(p, protocol, x)
  }

  lemma TimesGrowBy(before: seq<Record>, p: Record, protocol: string, x: string)
    ensures Times(before + [p], protocol, x) == Times(before, protocol, x) + Hit(p, protocol, x)
  {
    assert (before + [p])[..|before|] == before;
  }

  lemma BothGrowBy(before: seq<Record>, p: Record, protocol: string, x: string)
    ensures ListedOf(protocol, x)(before + [p]) == AddingHit(protocol, x)(ListedOf(protocol, x)(before), p)
    ensures TimesOf(protocol, x)(before + [p]) == AddingHit(protocol, x)(TimesOf(protocol, x)(before), p)
  {
    SelectedCounted(before, p, protocol, x);
    TimesGrowBy(before, p, protocol, x);
  }

  lemma NoneListed(protocol: string, x: string)
    ensures ListedOf(protocol, x)([]) == TimesOf(protocol, x)([])
  {
  }

  lemma TimesInFile(ps: seq<Record>, protocol: string, x: string)
    ensures ListedOf(protocol, x)(ps) == TimesOf(protocol, x)(ps)
  {
    NoneListed(protocol, x);
    forall before, p {:trigger before + [p]} | true
      ensures ListedOf(protocol, x)(before + [p]) == AddingHit(protocol, x)(ListedOf(protocol, x)(before), p)
      ensures TimesOf(protocol, x)(before + [p]) == AddingHit(protocol, x)(TimesOf(protocol, x)(before), p)
    {
      BothGrowBy(before, p, protocol, x);
    }
    SameFold(ps, Everyone, ListedOf(protocol, x), TimesOf(protocol, x), AddingHit(protocol, x));
  }

  lemma TimesInFileOf(ps: seq<Record>, protocol: string, x: string)
    ensures multiset(Addresses(OfProtocol(ps, protocol)))[x] == Times(ps, protocol, x)
  {
    TimesInFile(ps, protocol, x);
    assert ListedOf(protocol, x)(ps) == multiset(Addresses(OfProtocol(ps, protocol)))[x];
    assert TimesOf(protocol, x)(ps) == Times(ps, protocol, x);
  }

  lemma AddressCounted(before: seq<Record>, p: Record, x: string)
    ensures multiset(Addresses(before + [p]))[x] == multiset(Addresses(before))[x] + if p.Address() == x then 1 else 0
  {
    AddressesGrow(before, p);
  }

  function AllTimes(ps: seq<Record>, x: string): nat {
    Times(ps, HTTP, x) + Times(ps, HTTPS, x) + Times(ps, SOCKS4, x) + Times(ps, SOCKS4A, x) + Times(ps, SOCKS5, x)
  }

  lemma TimesGrow(before: seq<Record>, p: Record, x: string)
    requires Supported(p)
    ensures AllTimes(before + [p], x) == AllTimes(before, x) + if p.Address() == x then 1 else 0
  {
    var ps := before + [p];
    assert ps[..|before|] == before;
    HitsOneProtocol(p, x);
  }

  /** How often an address is listed, and how often over the five protocols. */
  function Listed(x: string): seq<Record> -> int {
    (ps: seq<Record>) => multiset(Addresses(ps))[x]
  }

  function Counted(x: string): seq<Record> -> int {
    (ps: seq<Record>) => AllTimes(ps, x)
  }

  function Adding(x: string): (int, Record) -> int {
    (n: int, p: Record) => n + if p.Address() == x then 1 else 0
  }

  lemma BothGrow(before: seq<Record>, p: Record, x: string)
    requires Supported(p)
    ensures Listed(x)(before + [p]) == Adding(x)(Listed(x)(before), p)
    ensures Counted(x)(before + [p]) == Adding(x)(Counted(x)(before), p)
  {
    AddressCounted(before, p, x);
    TimesGrow(before, p, x);
  }

  lemma BothStartEmpty(x: string)
    ensures Listed(x)([]) == Counted(x)([])
  {
  }

  lemma EachHasAProtocol(ps: seq<Record>, x: string)
    requires AllSupported(ps)
    ensures Listed(x)(ps) == Counted(x)(ps)
  {
    BothStartEmpty(x);
    forall before, p {:trigger before + [p]} | Supported(p)
      ensures Listed(x)(before + [p]) == Adding(x)(Listed(x)(before), p)
      ensures Counted(x)(before + [p]) == Adding(x)(Counted(x)(before), p)
    {
      BothGrow(before, p, x);
    }
    SameFold(ps, (p: Record) => Supported(p), Listed(x), Counted(x), Adding(x));
  }

  lemma ProtocolsCoverAll(ps: seq<Record>)
    requires AllSupported(ps)
    ensures multiset(Addresses(ps)) == ByProtocol(ps)
  {
    forall x ensures multiset(Addresses(ps))[x] == ByProtocol(ps)[x] {
      EachHasAProtocol(ps, x);
      assert Listed(x)(ps) == multiset(Addresses(ps))[x] && Counted(x)(ps) == AllTimes(ps, x);
      TimesInFileOf(ps, HTTP, x);
      TimesInFileOf(ps, HTTPS, x);
      TimesInFileOf(ps, SOCKS4, x);
      TimesInFileOf(ps, SOCKS4A, x);
      TimesInFileOf(ps, SOCKS5, x);
    }
  }

  /** alive.txt is the union of the protocol files, with multiplicity. */
  lemma AliveIsUnionOfProtocols(cfg: Config, ps: seq<Record>)
    requires AllSupported(ps) && cfg.splitByType
    ensures var es := AllEmissions(cfg, ps);
            multiset(LinesFor(es, "alive.txt"))
            == Union(LinesFor(es, HTTP + ".txt"), LinesFor(es, HTTPS + ".txt"), LinesFor(es, SOCKS4 + ".txt"),
                     LinesFor(es, SOCKS4A + ".txt"), LinesFor(es, SOCKS5 + ".txt"))
  {
    AliveFileLists(cfg, ps);
    ProtocolsCoverAll(ps);
    AllProtocolFiles(cfg, ps);
  }

  lemma AllProtocolFiles(cfg: Config, ps: seq<Record>)
    requires AllSupported(ps) && cfg.splitByType
    ensures forall protocol :: protocol in {HTTP, HTTPS, SOCKS4, SOCKS4A, SOCKS5} ==>
              LinesFor(AllEmissions(cfg, ps), protocol + ".txt") == Addresses(OfProtocol(ps, protocol))
  {
    forall protocol | protocol in {HTTP, HTTPS, SOCKS4, SOCKS4A, SOCKS5}
      ensures LinesFor(AllEmissions(cfg, ps), protocol + ".txt") == Addresses(OfProtocol(ps, protocol))
    {
      assert protocol in PROTOCOLS by {
        assert PROTOCOLS[0] == HTTP && PROTOCOLS[1] == HTTPS && PROTOCOLS[2] == SOCKS4 && PROTOCOLS[3] == SOCKS4A
            && PROTOCOLS[4] == SOCKS5;
      }
      ProtocolFileLists(cfg, ps, protocol);
    }
  }

  /** The proxies filed under a country. */
  function OfCountry(cfg: Config, ps: seq<Record>, code: string): seq<Record> {
    Select(ps, (p: Record) => HasCountry(cfg, p) && p.countryCode == code)
  }

  /** Those of the country, if countries are split off and it is one: neither empty nor "XX". */
  lemma {:induction false} CountryMembers(cfg: Config, ps: seq<Record>, code: string, p: Record)
    ensures p in OfCountry(cfg, ps, code)
      <==> p in ps && cfg.splitByCountry && p.countryCode == code && code != "" && code != "XX"
  {
    if ps != [] {
      var before := ps[..|ps| - 1];
      CountryMembers(cfg, before, code, p);
      assert ps == before + [ps[|ps| - 1]];
    }
  }

  lemma CountryFileLists(cfg: Config, ps: seq<Record>, code: string)
    requires AllSupported(ps) && '_' !in code
    ensures LinesFor(AllEmissions(cfg, ps), CountryFile(code)) == Addresses(OfCountry(cfg, ps, code))
  {
    forall i | 0 <= i < |ps|
      ensures LinesFor(Emissions(cfg, ps[i]), CountryFile(code))
           == One(HasCountry(cfg, ps[i]) && ps[i].countryCode == code, ps[i].Address())
    {
      OneCountryFile(cfg, ps[i], code);
    }
    FileLists(ps, (p: Record) => Emissions(cfg, p), CountryFile(code), (p: Record) => HasCountry(cfg, p) && p.countryCode == code,
              (p: Record) => p.Address());
  }

  lemma CountryProtocolFileLists(cfg: Config, ps: seq<Record>, code: string, protocol: string)
    requires AllOrdinary(ps) && '_' !in code
    ensures LinesFor(AllEmissions(cfg, ps), CountryProtocolFile(code, protocol))
         == Addresses(OfProtocol(OfCountry(cfg, ps, code), protocol))
  {
    var keep := (p: Record) => HasCountry(cfg, p) && p.countryCode == code && p.protocol == protocol;
    forall i | 0 <= i < |ps|
      ensures LinesFor(Emissions(cfg, ps[i]), CountryProtocolFile(code, protocol)) == One(keep(ps[i]), ps[i].Address())
    {
      OneCountryProtocolFile(cfg, ps[i], code, protocol);
    }
    FileLists(ps, (p: Record) => Emissions(cfg, p), CountryProtocolFile(code, protocol), keep, (p: Record) => p.Address());
    SelectTwice(ps, (p: Record) => HasCountry(cfg, p) && p.countryCode == code, (p: Record) => p.protocol == protocol, keep);
  }

  lemma {:induction false} SelectTwice(ps: seq<Record>, f: Record -> bool, g: Record -> bool, both: Record -> bool)
    requires forall p :: both(p) <==> f(p) && g(p)
    ensures Select(Select(ps, f), g) == Select(ps, both)
  {
    if ps != [] {
      var before, p := ps[..|ps| - 1], ps[|ps| - 1];
      SelectTwice(before, f, g, both);
      if f(p) {
        assert Select(ps, f)[..|Select(before, f)|] == Select(before, f);
      } else {
        assert Select(ps, f) == Select(before, f);
      }
    }
  }

  lemma {:induction false} SelectOrdinary(ps: seq<Record>, keep: Record -> bool)
    requires AllOrdinary(ps)
    ensures AllOrdinary(Select(ps, keep))
  {
    if ps != [] {
      SelectOrdinary(ps[..|ps| - 1], keep);
    }
  }

  /** A country's file is the union of its country-protocol files, with multiplicity. */
  lemma CountryIsUnionOfProtocols(cfg: Config, ps: seq<Record>, code: string)
    requires AllOrdinary(ps) && '_' !in code
    ensures var es := AllEmissions(cfg, ps);
            multiset(LinesFor(es, CountryFile(code)))
            == Union(LinesFor(es, CountryProtocolFile(code, HTTP)), LinesFor(es, CountryProtocolFile(code, HTTPS)),
                     LinesFor(es, CountryProtocolFile(code, SOCKS4)), LinesFor(es, CountryProtocolFile(code, SOCKS4A)),
                     LinesFor(es, CountryProtocolFile(code, SOCKS5)))
  {
    SelectOrdinary(ps, (p: Record) => HasCountry(cfg, p) && p.countryCode == code);
    CountryFileLists(cfg, ps, code);
    ProtocolsCoverAll(OfCountry(cfg, ps, code));
    CountryProtocolFileLists(cfg, ps, code, HTTP);
    CountryProtocolFileLists(cfg, ps, code, HTTPS);
    CountryProtocolFileLists(cfg, ps, code, SOCKS4);
    CountryProtocolFileLists(cfg, ps, code, SOCKS4A);
    CountryProtocolFileLists(cfg, ps, code, SOCKS5);
  }

  /** `a` can be had from `b` by leaving lines out. */
  ghost predicate IsSubsequence(a: seq<string>, b: seq<string>)
    decreases |b|
  {
    a == [] ||
    (b != [] &&
     (IsSubsequence(a, b[..|b| - 1])
      || (a[|a| - 1] == b[|b| - 1] && IsSubsequence(a[..|a| - 1], b[..|b| - 1]))))
  }

  lemma {:induction false} SelectionIsSubsequence(ps: seq<Record>, few: Record -> bool, many: Record -> bool)
    requires forall p :: few(p) ==> many(p)
    ensures IsSubsequence(Addresses(Select(ps, few)), Addresses(Select(ps, many)))
  {
    if ps != [] {
      var before, p := ps[..|ps| - 1], ps[|ps| - 1];
      SelectionIsSubsequence(before, few, many);
      var a, b := Addresses(Select(before, few)), Addresses(Select(before, many));
      if many(p) {
        AddressesGrow(Select(before, many), p);
        assert (b + [p.Address()])[..|b|] == b;
        if few(p) {
          AddressesGrow(Select(before, few), p);
          assert (a + [p.Address()])[..|a|] == a;
        } else {
          assert Select(ps, few) == Select(before, few);
        }
      } else {
        assert Select(ps, few) == Select(before, few) && Select(ps, many) == Select(before, many);
      }
    }
  }

  /** socks5_elite.txt is a subsequence of elite.txt, and of socks5.txt when that file exists. */
  lemma SocksEliteIsInBoth(cfg: Config, ps: seq<Record>)
    requires AllSupported(ps)
    ensures var es := AllEmissions(cfg, ps);
            && IsSubsequence(LinesFor(es, "socks5_elite.txt"), LinesFor(es, "elite.txt"))
            && (cfg.splitByType ==> IsSubsequence(LinesFor(es, "socks5_elite.txt"), LinesFor(es, SOCKS5 + ".txt")))
  {
    EliteFileLists(cfg, ps);
    SocksEliteFileLists(cfg, ps);
    var both := (p: Record) => p.anonymity == ELITE && p.protocol == SOCKS5;
    SelectionIsSubsequence(ps, both, (p: Record) => p.anonymity == ELITE);
    SelectionIsSubsequence(ps, both, (p: Record) => p.protocol == SOCKS5);
    if cfg.splitByType {
      assert PROTOCOLS[4] == SOCKS5;
      ProtocolFileLists(cfg, ps, SOCKS5);
    }
  }
}

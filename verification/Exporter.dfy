/** The output files of pkg/storage/exporter.go: what each verified proxy appends as
    it is found, and what the daemon's bulk rewrite leaves. */
module Exporter {
  import opened Text

  const HTTP := "http"
  const HTTPS := "https"
  const SOCKS4 := "socks4"
  const SOCKS4A := "socks4a"
  const SOCKS5 := "socks5"

  const ELITE := "elite"

  /** The part of a proxy the exporter reads. */
  datatype Record = Record(
    ip: string, port: int, protocol: string, anonymity: string, countryCode: string,
    latencyMs: int, score: int, alive: bool)
  {
    function Address(): string {
      HostPort(ip, port)
    }

    function URLString(): string {
      protocol + "://" + ip + ":" + Itoa(port)
    }
  }

  /** The configuration; the JSON and CSV encodings are given. */
  datatype Config = Config(
    splitByCountry: bool, splitByType: bool, saveJSON: bool, saveCSV: bool,
    toJSON: Record -> string, toCSV: Record -> string)

  /** A line and the file it goes to, relative to the output directory. */
  datatype Emission = Emission(file: string, line: string)

  /** File contents by relative path. */
  type Disk = map<string, string>

  predicate HasCountry(cfg: Config, p: Record) {
    cfg.splitByCountry && p.countryCode != "" && p.countryCode != "XX"
  }

  predicate IsFast(p: Record) {
    0 < p.latencyMs <= 500
  }

  function CountryFile(code: string): string {
    "countries/" + code + ".txt"
  }

  function CountryProtocolFile(code: string, protocol: string): string {
    CountryFile(code + "_" + protocol)
  }

  /** One of the rules by which a proxy is filed: whether it applies, to which file. */
  datatype Rule = Rule(applies: bool, file: string, line: string)

  /** The rules that do not look at the country, in the order they are tried. */
  function FixedRules(cfg: Config, p: Record): seq<Rule> {
    var a := p.Address();
    []
    + [Rule(true, "alive.txt", a)]
    + [Rule(true, "alive_url.txt", p.URLString())]
    + [Rule(cfg.splitByType, p.protocol + ".txt", a)]
    + [Rule(p.anonymity == ELITE, "elite.txt", a)]
    + [Rule(p.anonymity == ELITE && p.protocol == SOCKS5, "socks5_elite.txt", a)]
    + [Rule(IsFast(p), "fast.txt", a)]
    + [Rule(p.score >= 80, "high_quality.txt", a)]
  }

  /** The rules, in the order they are tried. */
  function Rules(cfg: Config, p: Record): seq<Rule> {
    FixedRules(cfg, p)
    + [Rule(HasCountry(cfg, p), CountryFile(p.countryCode), p.Address())]
    + [Rule(HasCountry(cfg, p), CountryProtocolFile(p.countryCode, p.protocol), p.Address())]
  }

  function Filed(rule: Rule): seq<Emission> {
    if rule.applies then [Emission(rule.file, rule.line)] else []
  }

  /** What the rules write, in order. */
  function FiledAll(rules: seq<Rule>): seq<Emission> {
    if rules == [] then [] else FiledAll(rules[..|rules| - 1]) + Filed(rules[|rules| - 1])
  }

  /** The text lines of one proxy, in the order they are written. */
  function Emissions(cfg: Config, p: Record): seq<Emission> {
    FiledAll(Rules(cfg, p))
  }

  /** The JSON and CSV lines, which only WriteAlive writes. */
  function Extras(cfg: Config, p: Record): seq<Emission> {
    Filed(Rule(cfg.saveJSON, "proxies.jsonl", cfg.toJSON(p))) + Filed(Rule(cfg.saveCSV, "proxies.csv", cfg.toCSV(p)))
  }

  function Content(disk: Disk, file: string): string {
    if file in disk then disk[file] else ""
  }

  function Append(disk: Disk, e: Emission): Disk {
    disk[e.file := Content(disk, e.file) + e.line + "\n"]
  }

  function AppendAll(disk: Disk, es: seq<Emission>): Disk {
    if es == [] then disk else Append(AppendAll(disk, es[..|es| - 1]), es[|es| - 1])
  }

  /** The lines among `es` that go to `file`, in order. */
  function LinesFor(es: seq<Emission>, file: string): seq<string> {
    if es == [] then []
    else LinesFor(es[..|es| - 1], file) + if es[|es| - 1].file == file then [es[|es| - 1].line] else []
  }

  type Groups = map<string, seq<string>>

  /** `linesByFile[file] = append(linesByFile[file], line)`. */
  function Add(groups: Groups, e: Emission): Groups {
    groups[e.file := (if e.file in groups then groups[e.file] else []) + [e.line]]
  }

  function Group(es: seq<Emission>): Groups {
    if es == [] then map[] else Add(Group(es[..|es| - 1]), es[|es| - 1])
  }

  /** The emissions of a list of proxies, one after the other. */
  function AllEmissions(cfg: Config, ps: seq<Record>): seq<Emission> {
    EmitAll(ps, (p: Record) => Emissions(cfg, p))
  }

  function EmitAll(ps: seq<Record>, emit: Record -> seq<Emission>): seq<Emission> {
    if ps == [] then [] else EmitAll(ps[..|ps| - 1], emit) + emit(ps[|ps| - 1])
  }

  function Alive(ps: seq<Record>): seq<Record> {
    Select(ps, (p: Record) => p.alive)
  }

  function Select(ps: seq<Record>, keep: Record -> bool): seq<Record> {
    if ps == [] then []
    else Select(ps[..|ps| - 1], keep) + if keep(ps[|ps| - 1]) then [ps[|ps| - 1]] else []
  }

  /** strings.Join(lines, "\n"). */
  function Join(lines: seq<string>): string {
    if lines == [] then "" else if |lines| == 1 then lines[0]
    else Join(lines[..|lines| - 1]) + "\n" + lines[|lines| - 1]
  }

  /** The contents of a rewritten file. */
  function FileContent(lines: seq<string>): string {
    Join(lines) + if |lines| > 0 then "\n" else ""
  }

  lemma {:induction false} FileContentIsRender(lines: seq<string>)
    ensures FileContent(lines) == Render(lines)
  {
    if |lines| == 1 {
      assert lines[..0] == [];
    } else if |lines| > 1 {
      FileContentIsRender(lines[..|lines| - 1]);
    }
  }

  lemma AllEmissionsGrow(cfg: Config, ps: seq<Record>, p: Record)
    ensures AllEmissions(cfg, ps + [p]) == AllEmissions(cfg, ps) + Emissions(cfg, p)
  {
    assert (ps + [p])[..|ps|] == ps;
  }

  // ----- The exporter -----

  class Exporter {
    const cfg: Config
    var disk: Disk
    var handles: set<string>  // files kept open for appending

    constructor (cfg: Config, disk: Disk)
      ensures this.cfg == cfg && this.disk == disk && handles == {}
    {
      this.cfg := cfg;
      this.disk := disk;
      handles := {};
    }

    /** Appends a line; the file is opened, and created if need be, on first use. */
    method AppendLine(file: string, line: string)
      modifies this
      ensures disk == Append(old(disk), Emission(file, line)) && handles == old(handles) + {file}
    {
      handles := handles + {file};
      disk := disk[file := (if file in disk then disk[file] else "") + line + "\n"];
    }

    /** Writes one verified proxy to every file it belongs to. */
    method WriteAlive(p: Record)
      modifies this
      ensures disk == AppendAll(old(disk), Emissions(cfg, p) + Extras(cfg, p))
    {
      ghost var start, done: seq<Rule> := disk, [];
      var addr := p.Address();
      done := WriteByRule(done, true, "alive.txt", addr, start);
      done := WriteByRule(done, true, "alive_url.txt", p.URLString(), start);
      done := WriteByRule(done, cfg.splitByType, p.protocol + ".txt", addr, start);
      done := WriteByRule(done, p.anonymity == ELITE, "elite.txt", addr, start);
      done := WriteByRule(done, p.anonymity == ELITE && p.protocol == SOCKS5, "socks5_elite.txt", addr, start);
      done := WriteByRule(done, IsFast(p), "fast.txt", addr, start);
      done := WriteByRule(done, p.score >= 80, "high_quality.txt", addr, start);
      var country := HasCountry(cfg, p);
      done := WriteByRule(done, country, CountryFile(p.countryCode), addr, start);
      done := WriteByRule(done, country, CountryProtocolFile(p.countryCode, p.protocol), addr, start);
      assert done == Rules(cfg, p);
      WriteExtras(p, start);
    }

    /** AppendLine under a rule's condition; `done` are the rules tried before it. */
    method WriteByRule(ghost done: seq<Rule>, condition: bool, file: string, line: string, ghost start: Disk)
      returns (ghost more: seq<Rule>)
      requires disk == AppendAll(start, FiledAll(done))
      modifies this
      ensures more == done + [Rule(condition, file, line)] && disk == AppendAll(start, FiledAll(more))
    {
      more := done + [Rule(condition, file, line)];
      ghost var before, after := FiledAll(done), FiledAll(more);
      assert more[..|done|] == done;
      if condition {
        assert after[..|before|] == before;
        AppendLine(file, line);
      } else {
        assert after == before;
      }
    }

    method WriteExtras(p: Record, ghost start: Disk)
      requires disk == AppendAll(start, Emissions(cfg, p))
      modifies this
      ensures disk == AppendAll(start, Emissions(cfg, p) + Extras(cfg, p))
    {
      ghost var es := Emissions(cfg, p);
      ghost var json := es + Filed(Rule(cfg.saveJSON, "proxies.jsonl", cfg.toJSON(p)));
      if cfg.saveJSON {
        assert json[..|es|] == es;
        AppendLine("proxies.jsonl", cfg.toJSON(p));
      } else {
        assert json == es;
      }
      assert es + Extras(cfg, p) == json + Filed(Rule(cfg.saveCSV, "proxies.csv", cfg.toCSV(p)));
      if cfg.saveCSV {
        assert (es + Extras(cfg, p))[..|json|] == json;
        AppendLine("proxies.csv", cfg.toCSV(p));
      } else {
        assert es + Extras(cfg, p) == json;
      }
    }

    /** Rewrites every file that some alive proxy belongs to, and no other. */
    method SyncAliveFiles(proxies: seq<Record>)
      modifies this
      ensures disk == Rewritten(old(disk), AllEmissions(cfg, Alive(proxies)))
      ensures handles == {}
    {
      handles := {};
      var linesByFile: Groups := map[];
      ghost var es: seq<Emission> := [];
      for i := 0 to |proxies|
        invariant es == AllEmissions(cfg, Alive(proxies[..i]))
        invariant linesByFile == Group(es)
        invariant disk == old(disk) && handles == {}
      {
        var p := proxies[i];
        assert proxies[..i + 1][..i] == proxies[..i];
        if p.alive {
          assert Alive(proxies[..i + 1]) == Alive(proxies[..i]) + [p];
          AllEmissionsGrow(cfg, Alive(proxies[..i]), p);
          linesByFile := Collect(p, linesByFile, es);
          es := es + Emissions(cfg, p);
        } else {
          assert Alive(proxies[..i + 1]) == Alive(proxies[..i]);
        }
      }
      assert proxies[..|proxies|] == proxies;
      WriteGroups(linesByFile);
    }

    /** The lines of one proxy, added to their groups. */
    method Collect(p: Record, groups: Groups, ghost es: seq<Emission>) returns (grown: Groups)
      requires groups == Group(es)
      ensures grown == Group(es + Emissions(cfg, p))
    {
      ghost var done: seq<Rule>;
      grown, done := CollectFixed(p, groups, es);
      var country := HasCountry(cfg, p);
      grown, done := AddByRule(done, country, CountryFile(p.countryCode), p.Address(), grown, es);
      grown, done := AddByRule(done, country, CountryProtocolFile(p.countryCode, p.protocol), p.Address(), grown, es);
      assert done == Rules(cfg, p);
      assert FiledAll(done) == Emissions(cfg, p);
    }

    /** The lines of the seven rules that do not look at the country. */
    method CollectFixed(p: Record, groups: Groups, ghost es: seq<Emission>) returns (grown: Groups, ghost done: seq<Rule>)
      requires groups == Group(es)
      ensures done == FixedRules(cfg, p) && grown == Group(es + FiledAll(done))
    {
      done := [];
      var addr := p.Address();
      assert es + [] == es;
      grown, done := AddByRule(done, true, "alive.txt", addr, groups, es);
      grown, done := AddByRule(done, true, "alive_url.txt", p.URLString(), grown, es);
      grown, done := AddByRule(done, cfg.splitByType, p.protocol + ".txt", addr, grown, es);
      grown, done := AddByRule(done, p.anonymity == ELITE, "elite.txt", addr, grown, es);
      grown, done := AddByRule(done, p.anonymity == ELITE && p.protocol == SOCKS5, "socks5_elite.txt", addr, grown, es);
      grown, done := AddByRule(done, IsFast(p), "fast.txt", addr, grown, es);
      grown, done := AddByRule(done, p.score >= 80, "high_quality.txt", addr, grown, es);
    }

    static method AddByRule(ghost done: seq<Rule>, condition: bool, file: string, line: string,
                            groups: Groups, ghost es: seq<Emission>) returns (grown: Groups, ghost more: seq<Rule>)
      requires groups == Group(es + FiledAll(done))
      ensures more == done + [Rule(condition, file, line)] && grown == Group(es + FiledAll(more))
    {
      more := done + [Rule(condition, file, line)];
      grown := groups;
      ghost var before, after := es + FiledAll(done), es + FiledAll(more);
      assert more[..|done|] == done;
      if condition {
        assert after == before + [Emission(file, line)] && after[..|before|] == before;
        grown := Add(groups, Emission(file, line));
      } else {
        assert after == before;
      }
    }

    /** Overwrites the file of each group; the order does not matter. */
    method WriteGroups(groups: Groups)
      modifies this`disk
      ensures disk == old(disk) + map f | f in groups :: FileContent(groups[f])
    {
      var todo := groups.Keys;
      while todo != {}
        invariant todo <= groups.Keys
        invariant disk.Keys == old(disk).Keys + (groups.Keys - todo)
        invariant forall f :: f in groups && f !in todo ==> disk[f] == FileContent(groups[f])
        invariant forall f :: f in old(disk) && (f !in groups || f in todo) ==> disk[f] == old(disk)[f]
        decreases |todo|
      {
        var f :| f in todo;
        var content := Join(groups[f]);
        if |groups[f]| > 0 {
          content := content + "\n";
        }
        disk := disk[f := content];
        todo := todo - {f};
      }
    }
  }

  /** What a bulk rewrite leaves on disk. */
  function Rewritten(disk: Disk, es: seq<Emission>): Disk {
    disk + map f | f in Group(es) :: FileContent(Group(es)[f])
  }
}

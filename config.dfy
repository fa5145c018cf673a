/**
 * The configuration overview of a session's project: which instruction,
 * rule, agent, command and memory files exist, an estimate of the tokens
 * each costs (a quarter of its size in bytes), whether a rule is loaded
 * always or only conditionally, and section totals.
 *
 * The file system is an input: `Files` maps the path of every regular file
 * to its size and the text of its first block, and `Dirs` maps a directory
 * path to its listing.
 */
module Config {
  import opened Wrappers
  import opened Text
  import Paths
  import Sorting

  datatype ConfigItemKind = SectionHeader | Category | FileExists | FileMissing | MemoryFile | SectionTotal

  datatype ConfigItem = ConfigItem(
    caption: string,
    path: Option<string>,
    kind: ConfigItemKind,
    tokens: Option<nat>,
    alwaysLoaded: Option<bool>)

  /** A regular file: its size in bytes, and the text of the first block of
      at most 512 bytes read from it (`None` when it cannot be opened). */
  datatype FileFacts = FileFacts(size: nat, head: Option<string>)

  type Files = map<string, FileFacts>

  // ----- Token estimates -----

  /** Frontmatter that makes a rule conditional: the text starts with
      "---" and names `paths` or turns `alwaysApply` off. */
  predicate Conditional(head: string) {
    && StartsWith(head, "---")
    && (|| Contains(head, "\npaths:") || Contains(head, "\npaths :")
        || Contains(head, "alwaysApply: false") || Contains(head, "alwaysApply:false"))
  }

  /** The estimated tokens of a file (a quarter of its size, cut to 32
      bits) and whether it is always loaded; nothing for a file without
      metadata. */
  function EstimateFileTokens(files: Files, path: string): (r: (Option<nat>, Option<bool>))
    ensures r.0.None? <==> path !in files
    ensures r.1.None? <==> path !in files
    ensures r.0.Some? ==> r.0.value == (files[path].size / 4) % U32Limit
    ensures r.1 == Some(false) <==> path in files && files[path].head.Some? && Conditional(files[path].head.value)
  {
    if path !in files then (None, None)
    else
      var facts := files[path];
      var tokens := (facts.size / 4) % U32Limit;
      match facts.head
      case None => (Some(tokens), Some(true))
      case Some(head) => (Some(tokens), Some(!Conditional(head)))
  }

  /** A 400-byte file without frontmatter costs 100 tokens and is always loaded. */
  lemma PlainFileEstimate(path: string)
    ensures var content := seq(400, _ => 'a');
      EstimateFileTokens(map[path := FileFacts(400, Some(content))], path) == (Some(100), Some(true))
  {
    var content := seq(400, _ => 'a');
    assert content[..3] != "---" by { assert content[0] == 'a'; }
  }

  /** A rule whose frontmatter lists `paths` is conditional. */
  lemma PathsFrontmatterEstimate(path: string, size: nat)
    ensures var head := "---" + "\npaths:" + "\n  - src/**/*.rs\n---\nSome rule content here\n";
      EstimateFileTokens(map[path := FileFacts(size, Some(head))], path).1 == Some(false)
  {
    var open, key, rest := "---", "\npaths:", "\n  - src/**/*.rs\n---\nSome rule content here\n";
    var head := open + key + rest;
    assert head[3..3 + |key|] == key;
    ContainsAt(head, key, 3);
    assert head[..3] == open;
  }

  /** Only an existing file or a memory file that has a path is measured;
      every other item carries no tokens. */
  function MakeItem(files: Files, caption: string, path: Option<string>, kind: ConfigItemKind): (r: ConfigItem)
    ensures r.caption == caption && r.path == path && r.kind == kind
    ensures r.tokens.Some? <==> r.alwaysLoaded.Some?
    ensures r.tokens.Some? <==> path.Some? && (kind == FileExists || kind == MemoryFile) && path.value in files
    ensures r.tokens.Some? ==> (r.tokens, r.alwaysLoaded) == EstimateFileTokens(files, path.value)
  {
    var estimate := if path.Some? && (kind == FileExists || kind == MemoryFile) then EstimateFileTokens(files, path.value) else (None, None);
    ConfigItem(caption, path, kind, estimate.0, estimate.1)
  }

  function Header(caption: string): ConfigItem {
    ConfigItem(caption, None, SectionHeader, None, None)
  }

  function TotalItem(caption: string, tokens: nat): ConfigItem {
    ConfigItem(caption, None, SectionTotal, Some(tokens), None)
  }

  // ----- Totals -----

  /** A section's running totals: all tokens, and those always loaded. */
  datatype Tally = Tally(total: nat, always: nat)

  /** An item's tokens count towards the total, and towards the always-loaded
      total unless the item is known to be conditional. */
  function Accumulate(item: ConfigItem, t: Tally): (r: Tally)
    ensures item.tokens.None? ==> r == t
    ensures r.total == t.total + item.tokens.UnwrapOr(0)
    ensures r.always == t.always + (if item.alwaysLoaded == Some(false) then 0 else item.tokens.UnwrapOr(0))
  {
    match item.tokens
    case None => t
    case Some(n) => Tally(t.total + n, if item.alwaysLoaded.UnwrapOr(true) then t.always + n else t.always)
  }

  /** `t` after accumulating the items in order. */
  function TallyFrom(t: Tally, items: seq<ConfigItem>): Tally
    decreases |items|
  {
    if |items| == 0 then t else TallyFrom(Accumulate(items[0], t), items[1..])
  }

  /** The tokens of the items, all of them and those not known to be conditional. */
  function SumTokens(items: seq<ConfigItem>): nat
    decreases |items|
  {
    if |items| == 0 then 0 else items[0].tokens.UnwrapOr(0) + SumTokens(items[1..])
  }

  function SumAlways(items: seq<ConfigItem>): nat
    decreases |items|
  {
    if |items| == 0 then 0
    else (if items[0].alwaysLoaded == Some(false) then 0 else items[0].tokens.UnwrapOr(0)) + SumAlways(items[1..])
  }

  /** A tally adds up every item's tokens, and the always-loaded part never
      exceeds the whole. */
  lemma {:induction false} TallySums(t: Tally, items: seq<ConfigItem>)
    ensures TallyFrom(t, items) == Tally(t.total + SumTokens(items), t.always + SumAlways(items))
    ensures SumAlways(items) <= SumTokens(items)
    decreases |items|
  {
    if |items| > 0 {
      TallySums(Accumulate(items[0], t), items[1..]);
    }
  }

  lemma {:induction false} TallyConcat(t: Tally, a: seq<ConfigItem>, b: seq<ConfigItem>)
    ensures TallyFrom(t, a + b) == TallyFrom(TallyFrom(t, a), b)
    decreases |a|
  {
    if |a| > 0 {
      assert (a + b)[0] == a[0] && (a + b)[1..] == a[1..] + b;
      TallyConcat(Accumulate(a[0], t), a[1..], b);
    } else {
      assert a + b == b;
    }
  }

  /** How a total is shown: the always-loaded part is added only when it
      differs from the total and is not zero. */
  function FormatTotal(section: string, total: nat, always: nat): (r: string)
    ensures StartsWith(r, "  " + section + " total: ~" + FormatTokens(total) + "tk")
    ensures |r| == |"  " + section + " total: ~" + FormatTokens(total) + "tk"| <==> total == always || always == 0
  {
    var short := "  " + section + " total: ~" + FormatTokens(total) + "tk";
    if total == always || always == 0 then short
    else
      var r := short + " (always: ~" + FormatTokens(always) + "tk)";
      assert r[..|short|] == short;
      r
  }

  /** Token counts below a thousand are shown as plain decimals; larger
      ones in thousands with one decimal and a 'K'. */
  function FormatTokens(t: nat): (r: string)
    ensures t < 1000 ==> AllDigits(r) && ParseNat(r) == t
    ensures t >= 1000 ==> |r| > 0 && r[|r| - 1] == 'K'
  {
    if t >= 1000 then
      var tenths := (t + 50) / 100;
      NatToString(tenths / 10) + "." + [DigitChar(tenths % 10)] + "K"
    else
      NatToStringRoundTrip(t);
      NatToString(t)
  }

  // ----- The item list -----

  datatype ConfigEntry = ConfigEntry(category: string, name: string)

  /** What a scan found for a session's project. */
  datatype SessionConfig = SessionConfig(
    globalClaudeMd: bool,
    globalRules: seq<ConfigEntry>,
    globalSkills: seq<string>,
    globalAgents: seq<ConfigEntry>,
    projectClaudeMd: bool,
    projectRules: seq<ConfigEntry>,
    projectSettings: bool,
    projectCommands: seq<string>,
    projectMemories: seq<string>)

  /** The items of categorised entries under `base`: a category line each
      time the category differs from the one before (`current` at first),
      then the entry. */
  function CategorizedItems(files: Files, entries: seq<ConfigEntry>, dirLabel: string, base: string, current: string): seq<ConfigItem>
    decreases |entries|
  {
    if |entries| == 0 then []
    else
      EntryLines(files, entries[0], dirLabel, base, current) + CategorizedItems(files, entries[1..], dirLabel, base, entries[0].category)
  }

  /** The file line of an entry under `base`/category. */
  function EntryItem(files: Files, e: ConfigEntry, base: string): (r: ConfigItem)
    ensures r.kind == FileExists && r.caption == "  " + e.name
    ensures r.path == Some(Paths.PathJoin(Paths.PathJoin(base, e.category), e.name))
  {
    MakeItem(files, "  " + e.name, Some(Paths.PathJoin(Paths.PathJoin(base, e.category), e.name)), FileExists)
  }

  /** The lines of one entry: a category line when its category is not
      `current`, then its file line. */
  function EntryLines(files: Files, e: ConfigEntry, dirLabel: string, base: string, current: string): (r: seq<ConfigItem>)
    ensures |r| == if e.category != current then 2 else 1
    ensures r[|r| - 1] == EntryItem(files, e, base)
    ensures |r| == 2 ==> r[0].kind == Category && r[0].caption == dirLabel + "/" + e.category + "/" && r[0].tokens.None?
  {
    if e.category != current then [MakeItem(files, dirLabel + "/" + e.category + "/", None, Category), EntryItem(files, e, base)]
    else [EntryItem(files, e, base)]
  }

  /** How often the category changes along the entries, starting from `current`. */
  function Changes(entries: seq<ConfigEntry>, current: string): nat
    decreases |entries|
  {
    if |entries| == 0 then 0
    else (if entries[0].category != current then 1 else 0) + Changes(entries[1..], entries[0].category)
  }

  function CountKind(items: seq<ConfigItem>, kind: ConfigItemKind): nat
    decreases |items|
  {
    if |items| == 0 then 0 else (if items[0].kind == kind then 1 else 0) + CountKind(items[1..], kind)
  }

  lemma {:induction false} CountKindConcat(a: seq<ConfigItem>, b: seq<ConfigItem>, kind: ConfigItemKind)
    ensures CountKind(a + b, kind) == CountKind(a, kind) + CountKind(b, kind)
    decreases |a|
  {
    if |a| > 0 {
      assert (a + b)[0] == a[0] && (a + b)[1..] == a[1..] + b;
      CountKindConcat(a[1..], b, kind);
    } else {
      assert a + b == b;
    }
  }

  /** One file line per entry, and a category line exactly at each change
      of category; category lines carry no tokens. */
  lemma {:induction false} CategorizedShape(files: Files, entries: seq<ConfigEntry>, dirLabel: string, base: string, current: string)
    ensures var r := CategorizedItems(files, entries, dirLabel, base, current);
      && CountKind(r, FileExists) == |entries|
      && CountKind(r, Category) == Changes(entries, current)
      && |r| == |entries| + Changes(entries, current)
    decreases |entries|
  {
    if |entries| > 0 {
      var e := entries[0];
      var lines := EntryLines(files, e, dirLabel, base, current);
      var rest := CategorizedItems(files, entries[1..], dirLabel, base, e.category);
      CategorizedShape(files, entries[1..], dirLabel, base, e.category);
      CountKindConcat(lines, rest, FileExists);
      CountKindConcat(lines, rest, Category);
      if |lines| == 2 {
        assert lines[1..] == [lines[1]];
      }
      assert lines[|lines| - 1..][1..] == [];
    }
  }

  /** Entries of one category all shown under a single category line. */
  lemma OneCategoryOneHeader(entries: seq<ConfigEntry>, c: string)
    requires |entries| > 0 && c != ""
    requires forall i :: 0 <= i < |entries| ==> entries[i].category == c
    ensures Changes(entries, "") == 1
  {
    SameCategoryNoChange(entries[1..], c);
  }

  lemma {:induction false} SameCategoryNoChange(entries: seq<ConfigEntry>, c: string)
    requires forall i :: 0 <= i < |entries| ==> entries[i].category == c
    ensures Changes(entries, c) == 0
    decreases |entries|
  {
    if |entries| > 0 {
      SameCategoryNoChange(entries[1..], c);
    }
  }

  /** A file line for each name under `base`. */
  function FlatItems(files: Files, names: seq<string>, indent: string, base: string, kind: ConfigItemKind): (r: seq<ConfigItem>)
    ensures |r| == |names|
    ensures forall i :: 0 <= i < |r| ==> r[i] == MakeItem(files, indent + names[i], Some(Paths.PathJoin(base, names[i])), kind)
  {
    seq(|names|, i requires 0 <= i < |names| => MakeItem(files, indent + names[i], Some(Paths.PathJoin(base, names[i])), kind))
  }

  /** The assistant's own directory under the home directory ("~" when it is unknown). */
  function ClaudeDir(home: Option<string>): string {
    Paths.PathJoin(home.UnwrapOr("~"), ".claude")
  }

  /** Where the memories of the project in `cwd` live. */
  function MemoryDir(home: Option<string>, cwd: string): string {
    Paths.PathJoin(Paths.PathJoin(Paths.PathJoin(ClaudeDir(home), "projects"), ReplaceChar(cwd, '/', '-')), "memory")
  }

  /** The global section between its header and its total. */
  function GlobalItems(cfg: SessionConfig, home: Option<string>, files: Files): seq<ConfigItem> {
    var dir := ClaudeDir(home);
    var md := if cfg.globalClaudeMd then MakeItem(files, "CLAUDE.md", Some(Paths.PathJoin(dir, "CLAUDE.md")), FileExists)
      else MakeItem(files, "CLAUDE.md", None, FileMissing);
    var rules := if |cfg.globalRules| == 0 then [MakeItem(files, "rules/  [empty]", None, FileMissing)]
      else CategorizedItems(files, cfg.globalRules, "rules", Paths.PathJoin(dir, "rules"), "");
    var agents := CategorizedItems(files, cfg.globalAgents, "agents", Paths.PathJoin(dir, "agents"), "");
    [md] + rules + agents
  }

  function ProjectMd(cfg: SessionConfig, cwd: string, files: Files): ConfigItem {
    if cfg.projectClaudeMd then MakeItem(files, "CLAUDE.md", Some(Paths.PathJoin(cwd, "CLAUDE.md")), FileExists)
    else MakeItem(files, "CLAUDE.md", None, FileMissing)
  }

  function ProjectRules(cfg: SessionConfig, cwd: string, files: Files): seq<ConfigItem> {
    CategorizedItems(files, cfg.projectRules, "rules", Paths.PathJoin(Paths.PathJoin(cwd, ".claude"), "rules"), "")
  }

  function SettingsItem(cfg: SessionConfig, cwd: string, files: Files): ConfigItem {
    if cfg.projectSettings then MakeItem(files, "settings.local.json", Some(Paths.PathJoin(Paths.PathJoin(cwd, ".claude"), "settings.local.json")), FileExists)
    else MakeItem(files, "settings.local.json", None, FileMissing)
  }

  function CommandItems(cfg: SessionConfig, cwd: string, files: Files): seq<ConfigItem> {
    if |cfg.projectCommands| == 0 then []
    else
      var header := MakeItem(files, "commands/", None, Category);
      [header] + FlatItems(files, cfg.projectCommands, "  ", Paths.PathJoin(Paths.PathJoin(cwd, ".claude"), "commands"), FileExists)
  }

  function MemoryItems(cfg: SessionConfig, home: Option<string>, cwd: string, files: Files): seq<ConfigItem> {
    if |cfg.projectMemories| == 0 then [MakeItem(files, "  (no memories)", None, FileMissing)]
    else FlatItems(files, cfg.projectMemories, "", MemoryDir(home, cwd), MemoryFile)
  }

  /** The project section between its header and its total. */
  function ProjectItems(cfg: SessionConfig, cwd: string, files: Files): seq<ConfigItem> {
    [ProjectMd(cfg, cwd, files)] + ProjectRules(cfg, cwd, files) + [SettingsItem(cfg, cwd, files)] + CommandItems(cfg, cwd, files)
  }

  /** The project items that count towards its total: all but the settings file. */
  function ProjectCounted(cfg: SessionConfig, cwd: string, files: Files): seq<ConfigItem> {
    [ProjectMd(cfg, cwd, files)] + ProjectRules(cfg, cwd, files) + CommandItems(cfg, cwd, files)
  }

  /** The global and project tallies and the memory total. The settings
      file is listed but not counted. */
  function SectionTotals(cfg: SessionConfig, home: Option<string>, cwd: string, files: Files): (r: (Tally, Tally, nat))
    ensures r.0.total == SumTokens(GlobalItems(cfg, home, files)) && r.0.always <= r.0.total
    ensures r.1.total == SumTokens(ProjectCounted(cfg, cwd, files)) && r.1.always <= r.1.total
  {
    TallySums(Tally(0, 0), GlobalItems(cfg, home, files));
    TallySums(Tally(0, 0), ProjectCounted(cfg, cwd, files));
    var global := TallyFrom(Tally(0, 0), GlobalItems(cfg, home, files));
    var project := TallyFrom(Tally(0, 0), ProjectCounted(cfg, cwd, files));
    (global, project, SumTokens(MemoryItems(cfg, home, cwd, files)))
  }

  function GrandTotalCaption(total: nat, always: nat): string {
    "Grand total: ~" + FormatTokens(total) + "tk  (always-loaded: ~" + FormatTokens(always) + "tk)"
  }

  /** The three sections, each under its header and closed by its total,
      then the grand total: the sum of the section totals, with the
      always-loaded part of the global and project sections. */
  function Assemble(global: seq<ConfigItem>, g: Tally, project: seq<ConfigItem>, p: Tally,
                    memoryCount: nat, memory: seq<ConfigItem>, m: nat): (r: seq<ConfigItem>)
    ensures |r| == |global| + |project| + |memory| + 10
    ensures r[0] == Header("Global (~/.claude/)")
    ensures r[|r| - 1] == TotalItem(GrandTotalCaption(g.total + p.total + m, g.always + p.always), g.total + p.total + m)
  {
    var globalPart := [Header("Global (~/.claude/)")] + global
      + [TotalItem(FormatTotal("Global", g.total, g.always), g.total), Header("")];
    var projectPart := [Header("Project (.claude/)")] + project
      + [TotalItem(FormatTotal("Project", p.total, p.always), p.total), Header("")];
    var memoryPart := [Header("Memory (" + NatToString(memoryCount) + ")")] + memory
      + [TotalItem("  ~" + FormatTokens(m) + "tk total", m), Header("")];
    var grand := TotalItem(GrandTotalCaption(g.total + p.total + m, g.always + p.always), g.total + p.total + m);
    assert (globalPart + projectPart + memoryPart)[0] == globalPart[0];
    globalPart + projectPart + memoryPart + [grand]
  }

  /** The overview of a project's configuration. */
  function ConfigItems(cfg: SessionConfig, home: Option<string>, cwd: string, files: Files): (r: seq<ConfigItem>)
    ensures |r| == |GlobalItems(cfg, home, files)| + |ProjectItems(cfg, cwd, files)| + |MemoryItems(cfg, home, cwd, files)| + 10
    ensures r[0] == Header("Global (~/.claude/)") && r[|r| - 1].kind == SectionTotal
  {
    var totals := SectionTotals(cfg, home, cwd, files);
    Assemble(GlobalItems(cfg, home, files), totals.0, ProjectItems(cfg, cwd, files), totals.1,
      |cfg.projectMemories|, MemoryItems(cfg, home, cwd, files), totals.2)
  }

  /** The last line is the grand total: the sum of the three section totals,
      with an always-loaded part that never exceeds it. */
  lemma GrandTotal(cfg: SessionConfig, home: Option<string>, cwd: string, files: Files)
    ensures var items := ConfigItems(cfg, home, cwd, files);
      var totals := SectionTotals(cfg, home, cwd, files);
      && items[|items| - 1].kind == SectionTotal
      && items[|items| - 1].tokens == Some(totals.0.total + totals.1.total + totals.2)
      && items[|items| - 1].caption == GrandTotalCaption(totals.0.total + totals.1.total + totals.2, totals.0.always + totals.1.always)
      && totals.0.always + totals.1.always <= totals.0.total + totals.1.total
  {
    TallySums(Tally(0, 0), GlobalItems(cfg, home, files));
    TallySums(Tally(0, 0), ProjectCounted(cfg, cwd, files));
  }

  /** Whether the settings file exists does not change any total. */
  lemma SettingsNotCounted(cfg: SessionConfig, home: Option<string>, cwd: string, files: Files, present: bool)
    ensures SectionTotals(cfg.(projectSettings := present), home, cwd, files) == SectionTotals(cfg, home, cwd, files)
  {
    var other := cfg.(projectSettings := present);
    assert GlobalItems(other, home, files) == GlobalItems(cfg, home, files);
    assert ProjectCounted(other, cwd, files) == ProjectCounted(cfg, cwd, files);
    assert MemoryItems(other, home, cwd, files) == MemoryItems(cfg, home, cwd, files);
  }

  /** Only the file line of an entry is tallied. */
  lemma EntryLinesTally(files: Files, e: ConfigEntry, dirLabel: string, base: string, current: string, t: Tally)
    ensures TallyFrom(t, EntryLines(files, e, dirLabel, base, current)) == Accumulate(EntryItem(files, e, base), t)
  {
    var lines := EntryLines(files, e, dirLabel, base, current);
    var item := EntryItem(files, e, base);
    assert TallyFrom(t, [item]) == Accumulate(item, t) by {
      assert [item][1..] == [];
    }
    if |lines| == 2 {
      assert lines[0].tokens.None? && lines[1..] == [item];
      assert TallyFrom(t, lines) == TallyFrom(t, [item]);
    } else {
      assert lines == [item];
    }
  }

  lemma AppendAssoc<T>(a: seq<T>, b: seq<T>, c: seq<T>)
    ensures a + b + c == a + (b + c)
  {
  }

  /** Entry `i` contributes its lines, and its file line's tokens, ahead of
      the entries after it. */
  lemma CategorizedUnroll(files: Files, entries: seq<ConfigEntry>, i: nat, dirLabel: string, base: string, current: string, t: Tally)
    requires i < |entries|
    ensures CategorizedItems(files, entries[i..], dirLabel, base, current)
      == EntryLines(files, entries[i], dirLabel, base, current) + CategorizedItems(files, entries[i + 1..], dirLabel, base, entries[i].category)
    ensures TallyFrom(t, CategorizedItems(files, entries[i..], dirLabel, base, current))
      == TallyFrom(Accumulate(EntryItem(files, entries[i], base), t), CategorizedItems(files, entries[i + 1..], dirLabel, base, entries[i].category))
  {
    assert entries[i..][0] == entries[i] && entries[i..][1..] == entries[i + 1..];
    var lines := EntryLines(files, entries[i], dirLabel, base, current);
    TallyConcat(t, lines, CategorizedItems(files, entries[i + 1..], dirLabel, base, entries[i].category));
    EntryLinesTally(files, entries[i], dirLabel, base, current, t);
  }

  /** Append the items of categorised entries, tallying them. */
  method AddCategorized(items: seq<ConfigItem>, tally: Tally, files: Files, entries: seq<ConfigEntry>, dirLabel: string, base: string)
    returns (items': seq<ConfigItem>, tally': Tally)
    ensures items' == items + CategorizedItems(files, entries, dirLabel, base, "")
    ensures tally' == TallyFrom(tally, CategorizedItems(files, entries, dirLabel, base, ""))
  {
    ghost var goal := CategorizedItems(files, entries, dirLabel, base, "");
    var added: seq<ConfigItem> := [];
    tally' := tally;
    var current := "";
    var i := 0;
    while i < |entries|
      invariant 0 <= i <= |entries|
      invariant added + CategorizedItems(files, entries[i..], dirLabel, base, current) == goal
      invariant TallyFrom(tally', CategorizedItems(files, entries[i..], dirLabel, base, current)) == TallyFrom(tally, goal)
    {
      var e := entries[i];
      CategorizedUnroll(files, entries, i, dirLabel, base, current, tally');
      var lines := EntryLines(files, e, dirLabel, base, current);
      AppendAssoc(added, lines, CategorizedItems(files, entries[i + 1..], dirLabel, base, e.category));
      added := added + lines;
      tally' := Accumulate(EntryItem(files, e, base), tally');
      current := e.category;
      i := i + 1;
    }
    assert entries[i..] == [];
    items' := items + added;
  }

  /** Append a file line for each name, and return the tally or the plain
      token sum of the new lines. */
  method AddFlat(items: seq<ConfigItem>, tally: Tally, files: Files, names: seq<string>, indent: string, base: string, kind: ConfigItemKind)
    returns (items': seq<ConfigItem>, tally': Tally, sum: nat)
    ensures items' == items + FlatItems(files, names, indent, base, kind)
    ensures tally' == TallyFrom(tally, FlatItems(files, names, indent, base, kind))
    ensures sum == SumTokens(FlatItems(files, names, indent, base, kind))
  {
    ghost var all := FlatItems(files, names, indent, base, kind);
    items', tally', sum := items, tally, 0;
    var i := 0;
    while i < |names|
      invariant 0 <= i <= |names|
      invariant items' == items + all[..i]
      invariant TallyFrom(tally', all[i..]) == TallyFrom(tally, all)
      invariant sum + SumTokens(all[i..]) == SumTokens(all)
    {
      var item := MakeItem(files, indent + names[i], Some(Paths.PathJoin(base, names[i])), kind);
      assert all[i] == item;
      assert all[i..][1..] == all[i + 1..];
      assert all[..i + 1] == all[..i] + [item];
      items' := items' + [item];
      tally' := Accumulate(item, tally');
      sum := sum + item.tokens.UnwrapOr(0);
      i := i + 1;
    }
    assert all[..i] == all;
  }

  /** The global section: the global instruction file, the rules (or a
      line saying there are none) and the agents, with their tally. */
  method BuildGlobal(cfg: SessionConfig, home: Option<string>, files: Files) returns (items: seq<ConfigItem>, tally: Tally)
    ensures items == GlobalItems(cfg, home, files)
    ensures tally == TallyFrom(Tally(0, 0), GlobalItems(cfg, home, files))
  {
    var dir := ClaudeDir(home);
    var md := if cfg.globalClaudeMd then MakeItem(files, "CLAUDE.md", Some(Paths.PathJoin(dir, "CLAUDE.md")), FileExists)
      else MakeItem(files, "CLAUDE.md", None, FileMissing);
    tally := Accumulate(md, Tally(0, 0));
    items := [md];
    assert tally == TallyFrom(Tally(0, 0), [md]);
    ghost var rules: seq<ConfigItem>;
    if |cfg.globalRules| == 0 {
      var empty := MakeItem(files, "rules/  [empty]", None, FileMissing);
      rules := [empty];
      items := items + [empty];
      assert TallyFrom(tally, rules) == tally;
    } else {
      rules := CategorizedItems(files, cfg.globalRules, "rules", Paths.PathJoin(dir, "rules"), "");
      items, tally := AddCategorized(items, tally, files, cfg.globalRules, "rules", Paths.PathJoin(dir, "rules"));
    }
    TallyConcat(Tally(0, 0), [md], rules);
    ghost var agents := CategorizedItems(files, cfg.globalAgents, "agents", Paths.PathJoin(dir, "agents"), "");
    if |cfg.globalAgents| > 0 {
      items, tally := AddCategorized(items, tally, files, cfg.globalAgents, "agents", Paths.PathJoin(dir, "agents"));
    }
    TallyConcat(Tally(0, 0), [md] + rules, agents);
  }

  /** The project section: its instruction file, rules, settings file and
      commands, with the tally of all but the settings file. */
  method BuildProject(cfg: SessionConfig, cwd: string, files: Files) returns (items: seq<ConfigItem>, tally: Tally)
    ensures items == ProjectItems(cfg, cwd, files)
    ensures tally == TallyFrom(Tally(0, 0), ProjectCounted(cfg, cwd, files))
  {
    var dot := Paths.PathJoin(cwd, ".claude");
    var md := ProjectMd(cfg, cwd, files);
    ghost var rules := ProjectRules(cfg, cwd, files);
    ghost var settings := SettingsItem(cfg, cwd, files);
    ghost var commands := CommandItems(cfg, cwd, files);
    tally := Accumulate(md, Tally(0, 0));
    assert tally == TallyFrom(Tally(0, 0), [md]) by {
      assert [md][1..] == [];
    }
    var head := [md];
    if |cfg.projectRules| > 0 {
      head, tally := AddCategorized(head, tally, files, cfg.projectRules, "rules", Paths.PathJoin(dot, "rules"));
    } else {
      assert rules == [];
      assert [md] + rules == [md];
    }
    assert head == [md] + rules;
    TallyConcat(Tally(0, 0), [md], rules);
    var tail := [];
    if |cfg.projectCommands| > 0 {
      var header := MakeItem(files, "commands/", None, Category);
      var ignored: nat;
      ghost var before := tally;
      tail, tally, ignored := AddFlat([header], tally, files, cfg.projectCommands, "  ", Paths.PathJoin(dot, "commands"), FileExists);
      assert tail == commands;
      TallyConcat(before, [header], commands[1..]);
      assert TallyFrom(before, [header]) == before by {
        assert [header][1..] == [];
      }
      assert [header] + commands[1..] == commands;
    } else {
      assert commands == [];
    }
    TallyConcat(Tally(0, 0), [md] + rules, commands);
    items := head + [SettingsItem(cfg, cwd, files)] + tail;
  }

  /** The memory section's lines (or a line saying there are none), and the sum of their tokens. */
  method BuildMemory(cfg: SessionConfig, home: Option<string>, cwd: string, files: Files) returns (items: seq<ConfigItem>, total: nat)
    ensures items == MemoryItems(cfg, home, cwd, files)
    ensures total == SumTokens(MemoryItems(cfg, home, cwd, files))
  {
    if |cfg.projectMemories| == 0 {
      items := [MakeItem(files, "  (no memories)", None, FileMissing)];
      total := 0;
    } else {
      var unused: Tally;
      items, unused, total := AddFlat([], Tally(0, 0), files, cfg.projectMemories, "", MemoryDir(home, cwd), MemoryFile);
    }
  }

  /** Build the overview of a project's configuration. */
  method BuildConfigItems(cfg: SessionConfig, home: Option<string>, cwd: string, files: Files) returns (items: seq<ConfigItem>)
    ensures items == ConfigItems(cfg, home, cwd, files)
  {
    var globalItems, global := BuildGlobal(cfg, home, files);
    var projectItems, project := BuildProject(cfg, cwd, files);
    var memoryItems, memTotal := BuildMemory(cfg, home, cwd, files);
    items := Assemble(globalItems, global, projectItems, project, |cfg.projectMemories|, memoryItems, memTotal);
  }

  // ----- Scanning the configuration directories -----

  /** An entry of a directory listing; `children` is the listing of a
      directory (`None` when it cannot be read). */
  datatype FsEntry = FsEntry(name: string, isDir: bool, isFile: bool, children: Option<seq<FsEntry>>)

  /** Path to listing, for every directory that can be read. */
  type Dirs = map<string, seq<FsEntry>>

  function Listing(dirs: Dirs, path: string): Option<seq<FsEntry>> {
    if path in dirs then Some(dirs[path]) else None
  }

  predicate Hidden(name: string) {
    StartsWith(name, ".")
  }

  /** The names of the directories (or of the files) that are not hidden, in listing order. */
  function VisibleNames(entries: seq<FsEntry>, wantDirs: bool): (r: seq<string>)
    ensures forall x :: x in r <==>
      (exists i :: 0 <= i < |entries| && entries[i].name == x && (if wantDirs then entries[i].isDir else entries[i].isFile) && !Hidden(x))
    decreases |entries|
  {
    if |entries| == 0 then []
    else
      var e := entries[0];
      var rest := VisibleNames(entries[1..], wantDirs);
      assert forall i :: 1 <= i < |entries| ==> entries[i] == entries[1..][i - 1];
      if (if wantDirs then e.isDir else e.isFile) && !Hidden(e.name) then [e.name] + rest else rest
  }

  function NameLe(a: string, b: string): bool { LexLe(a, b) }

  lemma NameLePreorder()
    ensures Sorting.IsTotalPreorder(NameLe)
  {
    forall a: string, b: string ensures NameLe(a, b) || NameLe(b, a) {
      LexLeTotal(a, b);
    }
    forall a: string, b: string, c: string | NameLe(a, b) && NameLe(b, c) ensures NameLe(a, c) {
      LexLeTrans(a, b, c);
    }
  }

  /** The visible names of a listing, sorted; none for a directory that cannot be read. */
  function SortedNames(listing: Option<seq<FsEntry>>, wantDirs: bool): (r: seq<string>)
    ensures listing.None? ==> r == []
    ensures listing.Some? ==> multiset(r) == multiset(VisibleNames(listing.value, wantDirs))
    ensures Sorting.SortedBy(r, NameLe)
    ensures forall i :: 0 <= i < |r| ==> !Hidden(r[i])
  {
    match listing
    case None => []
    case Some(entries) =>
      var names := VisibleNames(entries, wantDirs);
      NameLePreorder();
      Sorting.SortSorted(names, NameLe);
      var r := Sorting.Sort(names, NameLe);
      assert forall i :: 0 <= i < |r| ==> r[i] in multiset(names);
      r
  }

  /** The files of a directory that are not hidden, sorted. */
  function ScanFlatFiles(listing: Option<seq<FsEntry>>): (r: seq<string>)
    ensures Sorting.SortedBy(r, NameLe) && forall i :: 0 <= i < |r| ==> !Hidden(r[i])
  {
    SortedNames(listing, false)
  }

  /** A name is listed exactly when the directory has a visible entry of that kind by that name. */
  lemma ScanFlatFilesMembers(listing: Option<seq<FsEntry>>)
    ensures forall x :: x in ScanFlatFiles(listing) <==>
      (listing.Some? && exists i :: 0 <= i < |listing.value| && listing.value[i].name == x && listing.value[i].isFile && !Hidden(x))
  {
    if listing.Some? {
      var r := ScanFlatFiles(listing);
      assert forall x :: x in r <==> x in multiset(VisibleNames(listing.value, false));
    }
  }

  /** The sub-directories of a directory that are not hidden, sorted. */
  function ScanDirNames(listing: Option<seq<FsEntry>>): (r: seq<string>)
    ensures Sorting.SortedBy(r, NameLe) && forall i :: 0 <= i < |r| ==> !Hidden(r[i])
  {
    SortedNames(listing, true)
  }

  /** A name is listed exactly when the directory has a visible entry of that kind by that name. */
  lemma ScanDirNamesMembers(listing: Option<seq<FsEntry>>)
    ensures forall x :: x in ScanDirNames(listing) <==>
      (listing.Some? && exists i :: 0 <= i < |listing.value| && listing.value[i].name == x && listing.value[i].isDir && !Hidden(x))
  {
    if listing.Some? {
      var r := ScanDirNames(listing);
      assert forall x :: x in r <==> x in multiset(VisibleNames(listing.value, true));
    }
  }

  function EntryNameLe(a: FsEntry, b: FsEntry): bool { LexLe(a.name, b.name) }

  lemma EntryNameLePreorder()
    ensures Sorting.IsTotalPreorder(EntryNameLe)
  {
    forall a: FsEntry, b: FsEntry ensures EntryNameLe(a, b) || EntryNameLe(b, a) {
      LexLeTotal(a.name, b.name);
    }
    forall a: FsEntry, b: FsEntry, c: FsEntry | EntryNameLe(a, b) && EntryNameLe(b, c) ensures EntryNameLe(a, c) {
      LexLeTrans(a.name, b.name, c.name);
    }
  }

  function Subdirs(entries: seq<FsEntry>): (r: seq<FsEntry>)
    ensures forall e :: e in r <==> e in entries && e.isDir
    decreases |entries|
  {
    if |entries| == 0 then []
    else
      var rest := Subdirs(entries[1..]);
      assert forall e :: e in entries <==> e == entries[0] || e in entries[1..];
      if entries[0].isDir then [entries[0]] + rest else rest
  }

  /** The entries of one category directory: one per visible file, sorted;
      none for a hidden or unreadable directory. */
  function CategoryBlock(cat: FsEntry): (r: seq<ConfigEntry>)
    ensures forall i :: 0 <= i < |r| ==> r[i].category == cat.name && !Hidden(r[i].category) && !Hidden(r[i].name)
  {
    if Hidden(cat.name) || cat.children.None? then []
    else
      var names := ScanFlatFiles(cat.children);
      seq(|names|, i requires 0 <= i < |names| => ConfigEntry(cat.name, names[i]))
  }

  /** The entries of each category directory, in order. */
  function CategoryEntries(cats: seq<FsEntry>): (r: seq<ConfigEntry>)
    ensures forall i :: 0 <= i < |r| ==> !Hidden(r[i].category) && !Hidden(r[i].name)
    decreases |cats|
  {
    if |cats| == 0 then []
    else
      var block := CategoryBlock(cats[0]);
      block + CategoryEntries(cats[1..])
  }

  predicate NamesAtLeast(lo: string, cats: seq<FsEntry>) {
    forall k :: 0 <= k < |cats| ==> LexLe(lo, cats[k].name)
  }

  /** Every entry's category is one of the category names. */
  lemma {:induction false} EntriesAtLeast(lo: string, cats: seq<FsEntry>)
    requires NamesAtLeast(lo, cats)
    ensures forall i :: 0 <= i < |CategoryEntries(cats)| ==> LexLe(lo, CategoryEntries(cats)[i].category)
    decreases |cats|
  {
    if |cats| > 0 {
      assert NamesAtLeast(lo, cats[1..]) by {
        forall k | 0 <= k < |cats[1..]| ensures LexLe(lo, cats[1..][k].name) {
          assert cats[1..][k] == cats[k + 1];
        }
      }
      EntriesAtLeast(lo, cats[1..]);
      var block := CategoryBlock(cats[0]);
      var rest := CategoryEntries(cats[1..]);
      var r := block + rest;
      assert LexLe(lo, cats[0].name);
      forall i | 0 <= i < |r| ensures LexLe(lo, r[i].category) {
        if i >= |block| {
          assert r[i] == rest[i - |block|];
        } else {
          assert r[i] == block[i] && block[i].category == cats[0].name;
        }
      }
    }
  }

  /** Over categories sorted by name, the entries come category by category
      in that order. */
  lemma {:induction false} CategoryEntriesOrdered(cats: seq<FsEntry>)
    requires Sorting.SortedBy(cats, EntryNameLe)
    ensures forall i, j :: 0 <= i < j < |CategoryEntries(cats)| ==> LexLe(CategoryEntries(cats)[i].category, CategoryEntries(cats)[j].category)
    decreases |cats|
  {
    if |cats| > 0 {
      var cat := cats[0];
      var block := CategoryBlock(cat);
      var rest := CategoryEntries(cats[1..]);
      assert Sorting.SortedBy(cats[1..], EntryNameLe) by {
        forall i, j | 0 <= i < j < |cats[1..]| ensures EntryNameLe(cats[1..][i], cats[1..][j]) {
          assert cats[1..][i] == cats[i + 1] && cats[1..][j] == cats[j + 1];
        }
      }
      CategoryEntriesOrdered(cats[1..]);
      assert NamesAtLeast(cat.name, cats[1..]) by {
        forall k | 0 <= k < |cats[1..]| ensures LexLe(cat.name, cats[1..][k].name) {
          assert cats[1..][k] == cats[k + 1];
          assert EntryNameLe(cats[0], cats[k + 1]);
        }
      }
      EntriesAtLeast(cat.name, cats[1..]);
      BlockThenOrdered(block, rest, cat.name);
    }
  }

  /** A block of one category followed by ordered entries of categories no
      smaller is ordered by category. */
  lemma BlockThenOrdered(block: seq<ConfigEntry>, rest: seq<ConfigEntry>, name: string)
    requires forall i :: 0 <= i < |block| ==> block[i].category == name
    requires forall i :: 0 <= i < |rest| ==> LexLe(name, rest[i].category)
    requires forall i, j :: 0 <= i < j < |rest| ==> LexLe(rest[i].category, rest[j].category)
    ensures var r := block + rest;
      forall i, j :: 0 <= i < j < |r| ==> LexLe(r[i].category, r[j].category)
  {
    LexLeTotal(name, name);
    var r := block + rest;
    forall i, j | 0 <= i < j < |r| ensures LexLe(r[i].category, r[j].category) {
      if i < |block| {
        assert r[i] == block[i];
      } else {
        assert r[i] == rest[i - |block|];
      }
      if j < |block| {
        assert r[j] == block[j];
      } else {
        assert r[j] == rest[j - |block|];
      }
    }
  }

  /** The rules or agents of a category directory: one entry per visible
      file of each visible sub-directory, sub-directories in name order and
      files sorted within each. */
  function ScanCategorizedDir(listing: Option<seq<FsEntry>>): (r: seq<ConfigEntry>)
    ensures listing.None? ==> r == []
    ensures forall i :: 0 <= i < |r| ==> !Hidden(r[i].category) && !Hidden(r[i].name)
    ensures forall i, j :: 0 <= i < j < |r| ==> LexLe(r[i].category, r[j].category)
  {
    match listing
    case None => []
    case Some(entries) =>
      var dirs := Subdirs(entries);
      EntryNameLePreorder();
      Sorting.SortSorted(dirs, EntryNameLe);
      var cats := Sorting.Sort(dirs, EntryNameLe);
      CategoryEntriesOrdered(cats);
      CategoryEntries(cats)
  }

  /** `e` names a visible file of the visible, readable category directory `c`. */
  predicate ListedIn(e: ConfigEntry, c: FsEntry) {
    && !Hidden(c.name) && c.children.Some? && e.category == c.name && !Hidden(e.name)
    && exists m :: 0 <= m < |c.children.value| && c.children.value[m].isFile && c.children.value[m].name == e.name
  }

  lemma CategoryBlockMembers(cat: FsEntry)
    ensures forall e :: e in CategoryBlock(cat) <==> ListedIn(e, cat)
  {
    if !Hidden(cat.name) && cat.children.Some? {
      var names := ScanFlatFiles(cat.children);
      ScanFlatFilesMembers(cat.children);
      var r := CategoryBlock(cat);
      forall e ensures e in r <==> ListedIn(e, cat) {
        if e in r {
          var i :| 0 <= i < |r| && r[i] == e;
          assert e.name == names[i] && names[i] in names;
        }
        if ListedIn(e, cat) {
          assert e.name in names;
          var i :| 0 <= i < |names| && names[i] == e.name;
          assert r[i] == e;
        }
      }
    }
  }

  /** An entry is listed exactly when it names a visible file of one of the category directories. */
  lemma {:induction false} CategoryEntriesMembers(cats: seq<FsEntry>)
    ensures forall e :: e in CategoryEntries(cats) <==> exists k :: 0 <= k < |cats| && ListedIn(e, cats[k])
    decreases |cats|
  {
    if |cats| > 0 {
      CategoryEntriesMembers(cats[1..]);
      CategoryBlockMembers(cats[0]);
      var block := CategoryBlock(cats[0]);
      var rest := CategoryEntries(cats[1..]);
      forall e ensures e in block + rest <==> exists k :: 0 <= k < |cats| && ListedIn(e, cats[k]) {
        if e in rest {
          var k :| 0 <= k < |cats[1..]| && ListedIn(e, cats[1..][k]);
          assert cats[1..][k] == cats[k + 1];
        }
        if exists k :: 0 <= k < |cats| && ListedIn(e, cats[k]) {
          var k :| 0 <= k < |cats| && ListedIn(e, cats[k]);
          if k > 0 {
            assert cats[1..][k - 1] == cats[k];
          }
        }
      }
    }
  }

  /** The scan lists exactly the visible files of the visible, readable
      sub-directories of a readable directory. */
  lemma ScanCategorizedDirMembers(listing: Option<seq<FsEntry>>)
    ensures forall e :: e in ScanCategorizedDir(listing) <==>
      listing.Some? && exists c :: c in listing.value && c.isDir && ListedIn(e, c)
  {
    if listing.Some? {
      var dirs := Subdirs(listing.value);
      var cats := Sorting.Sort(dirs, EntryNameLe);
      CategoryEntriesMembers(cats);
      assert ScanCategorizedDir(listing) == CategoryEntries(cats);
      forall c, e | c in listing.value && c.isDir && ListedIn(e, c)
        ensures exists k :: 0 <= k < |cats| && ListedIn(e, cats[k])
      {
        assert c in multiset(cats);
        var k :| 0 <= k < |cats| && cats[k] == c;
      }
      forall k, e | 0 <= k < |cats| && ListedIn(e, cats[k])
        ensures cats[k] in listing.value && cats[k].isDir
      {
        assert cats[k] in multiset(dirs);
      }
    }
  }

  function EntryName(e: FsEntry): string { e.name }

  lemma {:induction false} SubdirsDistinct(entries: seq<FsEntry>)
    requires Sorting.DistinctBy(entries, EntryName)
    ensures Sorting.DistinctBy(Subdirs(entries), EntryName)
    decreases |entries|
  {
    if |entries| > 0 {
      var tail := entries[1..];
      assert forall i :: 0 <= i < |tail| ==> tail[i] == entries[i + 1];
      SubdirsDistinct(tail);
      var rest := Subdirs(tail);
      if entries[0].isDir {
        forall j | 0 <= j < |rest| ensures entries[0].name != rest[j].name {
          assert rest[j] in rest;
          var k :| 0 <= k < |tail| && tail[k] == rest[j];
        }
        assert Subdirs(entries) == [entries[0]] + rest;
        DistinctCons(entries[0], rest);
      }
    }
  }

  /** An entry whose name no later entry has, in front of entries with
      distinct names, keeps the names distinct. */
  lemma DistinctCons(e: FsEntry, rest: seq<FsEntry>)
    requires Sorting.DistinctBy(rest, EntryName)
    requires forall j :: 0 <= j < |rest| ==> e.name != rest[j].name
    ensures Sorting.DistinctBy([e] + rest, EntryName)
  {
    var r := [e] + rest;
    forall i, j | 0 <= i < j < |r| ensures EntryName(r[i]) != EntryName(r[j]) {
      assert r[j] == rest[j - 1];
      if i > 0 {
        assert r[i] == rest[i - 1];
      }
    }
  }

  /** Within one category directory the entries are sorted by file name. */
  lemma BlockSorted(cat: FsEntry)
    ensures var block := CategoryBlock(cat);
      forall i, j :: 0 <= i < j < |block| ==> LexLe(block[i].name, block[j].name)
  {
    if !Hidden(cat.name) && cat.children.Some? {
      var names := ScanFlatFiles(cat.children);
      var block := CategoryBlock(cat);
      forall i, j | 0 <= i < j < |block| ensures LexLe(block[i].name, block[j].name) {
        assert block[i].name == names[i] && block[j].name == names[j];
        assert NameLe(names[i], names[j]);
      }
    }
  }

  /** With distinct names, no entry after the first category's block belongs to it. */
  lemma OtherCategories(cats: seq<FsEntry>)
    requires |cats| > 0 && Sorting.DistinctBy(cats, EntryName)
    ensures forall e :: e in CategoryEntries(cats[1..]) ==> e.category != cats[0].name
  {
    var tail := cats[1..];
    CategoryEntriesMembers(tail);
    forall e | e in CategoryEntries(tail) ensures e.category != cats[0].name {
      var k :| 0 <= k < |tail| && ListedIn(e, tail[k]);
      assert tail[k] == cats[k + 1];
      assert EntryName(cats[0]) != EntryName(cats[k + 1]);
    }
  }

  /** Entries of the same category appear in file-name order. */
  predicate SortedWithin(r: seq<ConfigEntry>) {
    forall i, j :: 0 <= i < j < |r| && r[i].category == r[j].category ==> LexLe(r[i].name, r[j].name)
  }

  /** Entries of one category sorted by name, followed by entries of other
      categories sorted within each category, are sorted within each category. */
  lemma SortedWithinJoin(block: seq<ConfigEntry>, rest: seq<ConfigEntry>, cat: string)
    requires forall i :: 0 <= i < |block| ==> block[i].category == cat
    requires forall e :: e in rest ==> e.category != cat
    requires forall i, j :: 0 <= i < j < |block| ==> LexLe(block[i].name, block[j].name)
    requires SortedWithin(rest)
    ensures SortedWithin(block + rest)
  {
    var r := block + rest;
    forall i, j | 0 <= i < j < |r| && r[i].category == r[j].category ensures LexLe(r[i].name, r[j].name) {
      if j < |block| {
        assert r[i] == block[i] && r[j] == block[j];
      } else if i >= |block| {
        assert r[i] == rest[i - |block|] && r[j] == rest[j - |block|];
      }
    }
  }

  /** Over category directories sorted by distinct names, the entries of one
      category are sorted by file name. */
  lemma {:induction false} CategoryEntriesSorted(cats: seq<FsEntry>)
    requires Sorting.DistinctBy(cats, EntryName)
    ensures SortedWithin(CategoryEntries(cats))
    decreases |cats|
  {
    if |cats| > 0 {
      var tail := cats[1..];
      assert Sorting.DistinctBy(tail, EntryName) by {
        forall i, j | 0 <= i < j < |tail| ensures EntryName(tail[i]) != EntryName(tail[j]) {
          assert tail[i] == cats[i + 1] && tail[j] == cats[j + 1];
        }
      }
      CategoryEntriesSorted(tail);
      OtherCategories(cats);
      BlockSorted(cats[0]);
      var block := CategoryBlock(cats[0]);
      var rest := CategoryEntries(tail);
      var r := block + rest;
      assert CategoryEntries(cats) == block + rest;
      SortedWithinJoin(block, rest, cats[0].name);
    }
  }

  /** The scan of a directory whose entries have distinct names (as every
      real directory's do) is ordered by category and, within a category,
      by file name. */
  lemma ScanCategorizedDirSorted(listing: Option<seq<FsEntry>>)
    ensures listing.Some? && Sorting.DistinctBy(listing.value, EntryName) ==>
      var r := ScanCategorizedDir(listing);
      forall i, j :: 0 <= i < j < |r| ==>
        && LexLe(r[i].category, r[j].category)
        && (r[i].category == r[j].category ==> LexLe(r[i].name, r[j].name))
  {
    if listing.Some? && Sorting.DistinctBy(listing.value, EntryName) {
      var dirs := Subdirs(listing.value);
      SubdirsDistinct(listing.value);
      EntryNameLePreorder();
      Sorting.SortSorted(dirs, EntryNameLe);
      Sorting.SortDistinct(dirs, EntryNameLe, EntryName);
      var cats := Sorting.Sort(dirs, EntryNameLe);
      CategoryEntriesSorted(cats);
      assert ScanCategorizedDir(listing) == CategoryEntries(cats);
    }
  }

  /** What exists of a project's configuration, under the home directory
      (`home`, "~" when unknown) and in the project directory `cwd`. */
  function ScanSessionConfig(home: Option<string>, cwd: string, dirs: Dirs, files: Files): (r: SessionConfig)
    ensures r.globalClaudeMd <==> Paths.PathJoin(ClaudeDir(home), "CLAUDE.md") in files
    ensures r.projectClaudeMd <==> Paths.PathJoin(cwd, "CLAUDE.md") in files
    ensures r.projectSettings <==> Paths.PathJoin(Paths.PathJoin(cwd, ".claude"), "settings.local.json") in files
    ensures forall i :: 0 <= i < |r.projectMemories| ==> !Hidden(r.projectMemories[i])
    ensures Sorting.SortedBy(r.projectMemories, NameLe) && Sorting.SortedBy(r.projectCommands, NameLe)
    ensures forall i :: 0 <= i < |r.globalRules| ==> !Hidden(r.globalRules[i].category) && !Hidden(r.globalRules[i].name)
  {
    var dir := ClaudeDir(home);
    var dot := Paths.PathJoin(cwd, ".claude");
    SessionConfig(
      Paths.PathJoin(dir, "CLAUDE.md") in files,
      ScanCategorizedDir(Listing(dirs, Paths.PathJoin(dir, "rules"))),
      ScanDirNames(Listing(dirs, Paths.PathJoin(dir, "skills"))),
      ScanCategorizedDir(Listing(dirs, Paths.PathJoin(dir, "agents"))),
      Paths.PathJoin(cwd, "CLAUDE.md") in files,
      ScanCategorizedDir(Listing(dirs, Paths.PathJoin(dot, "rules"))),
      Paths.PathJoin(dot, "settings.local.json") in files,
      ScanFlatFiles(Listing(dirs, Paths.PathJoin(dot, "commands"))),
      ScanFlatFiles(Listing(dirs, MemoryDir(home, cwd))))
  }
}

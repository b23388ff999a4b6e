/** From a configuration and the fetched texts of its sources to the three stores. */
module Compiler {
  import opened Text
  import opened Parsers
  import opened HostLines
  import opened Db
  import opened Rules

  datatype BlacklistFormat = Hosts | Domains

  datatype WhitelistFormat = Hosts | Domains | Zone

  datatype OverrideFormat = Cname

  /** A source with the text fetched from it, or `None` when the fetch failed. */
  datatype Source<F> = Source(format: F, text: Option<string>)

  datatype Config = Config(
    blacklist: seq<Source<BlacklistFormat>>,
    whitelist: seq<Source<WhitelistFormat>>,
    overrides: seq<Source<OverrideFormat>>)

  // ---------- lines to rules ----------

  /** The three line parsers; the compiler's own behaviour does not depend on what they do. */
  datatype LineParsers = LineParsers(
    hosts: string -> Option<string>,
    domains: string -> Option<string>,
    cname: string -> Option<CName>)

  /** The parsers the program uses. */
  function ProgramParsers(lib: Lib): LineParsers {
    LineParsers((line: string) => HostDomain(lib, line),
                (line: string) => ParseDomain(lib, line),
                (line: string) => ParseCName(lib, line))
  }

  function BlacklistParser(ps: LineParsers, format: BlacklistFormat): string -> Option<string> {
    match format
    case Hosts => ps.hosts
    case Domains => ps.domains
  }

  function IntoDomain(c: Option<CName>): Option<string> {
    match c
    case Some(cname) => Some(cname.domain)
    case None => None
  }

  function WhitelistParser(ps: LineParsers, format: WhitelistFormat): string -> Option<string> {
    match format
    case Hosts => ps.hosts
    case Domains => ps.domains
    case Zone => (line: string) => IntoDomain(ps.cname(line))
  }

  function RewriteParser(ps: LineParsers, format: OverrideFormat): string -> Option<CName> {
    match format
    case Cname => ps.cname
  }

  function FilterMap<T>(lines: seq<string>, parse: string -> Option<T>): seq<T> {
    if lines == [] then []
    else
      var n := |lines| - 1;
      FilterMap(lines[..n], parse) + match parse(lines[n]) case Some(v) => [v] case None => []
  }

  function LinesOf(text: Option<string>): seq<string> {
    match text
    case Some(s) => Lines(s)
    case None => []
  }

  /** What one source contributes: nothing when its fetch failed. */
  function Load<T>(text: Option<string>, parse: string -> Option<T>): seq<T> {
    FilterMap(LinesOf(text), parse)
  }

  /** `load_blacklist`, `load_whitelist` and `load_rewrites` of one source. */
  function LoadBlacklist(ps: LineParsers): Source<BlacklistFormat> -> seq<string> {
    (source: Source<BlacklistFormat>) => Load(source.text, BlacklistParser(ps, source.format))
  }

  function LoadWhitelist(ps: LineParsers): Source<WhitelistFormat> -> seq<string> {
    (source: Source<WhitelistFormat>) => Load(source.text, WhitelistParser(ps, source.format))
  }

  function LoadRewrites(ps: LineParsers): Source<OverrideFormat> -> seq<CName> {
    (source: Source<OverrideFormat>) => Load(source.text, RewriteParser(ps, source.format))
  }

  /** Everything the sources contribute, source by source and line by line. */
  function FlatMap<S, T>(sources: seq<S>, load: S -> seq<T>): seq<T> {
    if sources == [] then []
    else
      var n := |sources| - 1;
      FlatMap(sources[..n], load) + load(sources[n])
  }

  function BlacklistDomains(ps: LineParsers, sources: seq<Source<BlacklistFormat>>): seq<string> {
    FlatMap(sources, LoadBlacklist(ps))
  }

  function WhitelistDomains(ps: LineParsers, sources: seq<Source<WhitelistFormat>>): seq<string> {
    FlatMap(sources, LoadWhitelist(ps))
  }

  function Overrides(ps: LineParsers, sources: seq<Source<OverrideFormat>>): seq<CName> {
    FlatMap(sources, LoadRewrites(ps))
  }

  // ---------- the writes of a compilation ----------

  datatype Write = Allow(domain: string) | Deny(domain: string) | Rewrite(cname: CName)

  function AllowAll(domains: seq<string>): seq<Write> {
    seq(|domains|, i requires 0 <= i < |domains| => Allow(domains[i]))
  }

  function DenyAll(domains: seq<string>): seq<Write> {
    seq(|domains|, i requires 0 <= i < |domains| => Deny(domains[i]))
  }

  function RewriteAll(cnames: seq<CName>): seq<Write> {
    seq(|cnames|, i requires 0 <= i < |cnames| => Rewrite(cnames[i]))
  }

  lemma {:induction false} FlatMapNext<S, T>(sources: seq<S>, load: S -> seq<T>, i: nat)
    requires i < |sources|
    ensures FlatMap(sources[..i + 1], load) == FlatMap(sources[..i], load) + load(sources[i])
  {
    assert sources[..i + 1][..i] == sources[..i];
  }

  lemma {:induction false} Associate<T>(a: seq<T>, b: seq<T>, c: seq<T>)
    ensures a + (b + c) == a + b + c
  {
  }

  lemma {:induction false} AllowAllConcat(a: seq<string>, b: seq<string>)
    ensures AllowAll(a + b) == AllowAll(a) + AllowAll(b)
  {
  }

  lemma {:induction false} DenyAllConcat(a: seq<string>, b: seq<string>)
    ensures DenyAll(a + b) == DenyAll(a) + DenyAll(b)
  {
  }

  lemma {:induction false} RewriteAllConcat(a: seq<CName>, b: seq<CName>)
    ensures RewriteAll(a + b) == RewriteAll(a) + RewriteAll(b)
  {
  }

  /** Whitelist first, then blacklist, then rewrites; sources and lines in order. */
  function Writes(ps: LineParsers, config: Config): seq<Write> {
    AllowAll(WhitelistDomains(ps, config.whitelist))
    + DenyAll(BlacklistDomains(ps, config.blacklist))
    + RewriteAll(Overrides(ps, config.overrides))
  }

  function Step(t: Tables, w: Write): Tables {
    match w
    case Allow(d) => t.(whitelist := t.whitelist[NormalizeName(d) := "true"])
    case Deny(d) => t.(blacklist := t.blacklist[NormalizeName(d) := "true"])
    case Rewrite(c) => t.(rewrites := t.rewrites[NormalizeName(c.domain) := NormalizeName(c.alias)])
  }

  /** The stores after these writes, of which those numbered in `failed` did nothing. */
  function Apply(t: Tables, writes: seq<Write>, failed: set<nat>): Tables {
    if writes == [] then t
    else
      var n := |writes| - 1;
      var before := Apply(t, writes[..n], failed);
      if n in failed then before else Step(before, writes[n])
  }

  lemma {:induction false} ApplySnoc(t: Tables, writes: seq<Write>, w: Write, failed: set<nat>)
    ensures Apply(t, writes + [w], failed)
         == if |writes| in failed then Apply(t, writes, failed) else Step(Apply(t, writes, failed), w)
  {
    assert (writes + [w])[..|writes|] == writes;
  }

  /** The inner loop over the domains of one whitelist source; `n` writes, `made`, came before,
      and writes numbered in `failed` do nothing. */
  method PutAllowed(domains: seq<string>, db: AdblockDB, failed: set<nat>,
      n: nat, ghost start: Tables, ghost made: seq<Write>)
    requires db.Open() && n == |made|
    requires db.Contents() == Apply(start, made, failed)
    modifies db.whitelist`db
    ensures db.Open()
    ensures db.Contents() == Apply(start, made + AllowAll(domains), failed)
  {
    assert made + AllowAll(domains[..0]) == made;
    for j := 0 to |domains|
      invariant db.Open()
      invariant db.Contents() == Apply(start, made + AllowAll(domains[..j]), failed)
    {
      ghost var done := made + AllowAll(domains[..j]);
      var _ := db.whitelist.Put(domains[j], n + j !in failed);
      ApplySnoc(start, done, Allow(domains[j]), failed);
      assert made + AllowAll(domains[..j + 1]) == done + [Allow(domains[j])];
    }
    assert domains[..|domains|] == domains;
  }

  lemma {:induction false} NextAllowed(ps: LineParsers, sources: seq<Source<WhitelistFormat>>, i: nat, made: seq<Write>)
    requires i < |sources|
    ensures var before, loaded := WhitelistDomains(ps, sources[..i]), LoadWhitelist(ps)(sources[i]);
            && WhitelistDomains(ps, sources[..i + 1]) == before + loaded
            && made + AllowAll(before + loaded) == made + AllowAll(before) + AllowAll(loaded)
  {
    var before, loaded := WhitelistDomains(ps, sources[..i]), LoadWhitelist(ps)(sources[i]);
    FlatMapNext(sources, LoadWhitelist(ps), i);
    AllowAllConcat(before, loaded);
    Associate(made, AllowAll(before), AllowAll(loaded));
  }

  /** The outer loop, over the whitelist sources. */
  method CompileWhitelist(ps: LineParsers, sources: seq<Source<WhitelistFormat>>, db: AdblockDB, failed: set<nat>,
      n: nat, ghost start: Tables, ghost made: seq<Write>) returns (m: nat)
    requires db.Open() && n == |made|
    requires db.Contents() == Apply(start, made, failed)
    modifies db.whitelist`db
    ensures db.Open() && m == n + |WhitelistDomains(ps, sources)|
    ensures db.Contents() == Apply(start, made + AllowAll(WhitelistDomains(ps, sources)), failed)
  {
    m := n;
    assert made + AllowAll(WhitelistDomains(ps, sources[..0])) == made;
    for i := 0 to |sources|
      invariant db.Open()
      invariant m == n + |WhitelistDomains(ps, sources[..i])|
      invariant db.Contents() == Apply(start, made + AllowAll(WhitelistDomains(ps, sources[..i])), failed)
    {
      ghost var before := WhitelistDomains(ps, sources[..i]);
      var domains := LoadWhitelist(ps)(sources[i]);
      PutAllowed(domains, db, failed, m, start, made + AllowAll(before));
      NextAllowed(ps, sources, i, made);
      m := m + |domains|;
    }
    assert sources[..|sources|] == sources;
  }

  /** The inner loop over the domains of one blacklist source; `n` writes, `made`, came before,
      and writes numbered in `failed` do nothing. */
  method PutDenied(domains: seq<string>, db: AdblockDB, failed: set<nat>,
      n: nat, ghost start: Tables, ghost made: seq<Write>)
    requires db.Open() && n == |made|
    requires db.Contents() == Apply(start, made, failed)
    modifies db.blacklist`db
    ensures db.Open()
    ensures db.Contents() == Apply(start, made + DenyAll(domains), failed)
  {
    assert made + DenyAll(domains[..0]) == made;
    for j := 0 to |domains|
      invariant db.Open()
      invariant db.Contents() == Apply(start, made + DenyAll(domains[..j]), failed)
    {
      ghost var done := made + DenyAll(domains[..j]);
      var _ := db.blacklist.Put(domains[j], n + j !in failed);
      ApplySnoc(start, done, Deny(domains[j]), failed);
      assert made + DenyAll(domains[..j + 1]) == done + [Deny(domains[j])];
    }
    assert domains[..|domains|] == domains;
  }

  lemma {:induction false} NextDenied(ps: LineParsers, sources: seq<Source<BlacklistFormat>>, i: nat, made: seq<Write>)
    requires i < |sources|
    ensures var before, loaded := BlacklistDomains(ps, sources[..i]), LoadBlacklist(ps)(sources[i]);
            && BlacklistDomains(ps, sources[..i + 1]) == before + loaded
            && made + DenyAll(before + loaded) == made + DenyAll(before) + DenyAll(loaded)
  {
    var before, loaded := BlacklistDomains(ps, sources[..i]), LoadBlacklist(ps)(sources[i]);
    FlatMapNext(sources, LoadBlacklist(ps), i);
    DenyAllConcat(before, loaded);
    Associate(made, DenyAll(before), DenyAll(loaded));
  }

  /** The outer loop, over the blacklist sources. */
  method CompileBlacklist(ps: LineParsers, sources: seq<Source<BlacklistFormat>>, db: AdblockDB, failed: set<nat>,
      n: nat, ghost start: Tables, ghost made: seq<Write>) returns (m: nat)
    requires db.Open() && n == |made|
    requires db.Contents() == Apply(start, made, failed)
    modifies db.blacklist`db
    ensures db.Open() && m == n + |BlacklistDomains(ps, sources)|
    ensures db.Contents() == Apply(start, made + DenyAll(BlacklistDomains(ps, sources)), failed)
  {
    m := n;
    assert made + DenyAll(BlacklistDomains(ps, sources[..0])) == made;
    for i := 0 to |sources|
      invariant db.Open()
      invariant m == n + |BlacklistDomains(ps, sources[..i])|
      invariant db.Contents() == Apply(start, made + DenyAll(BlacklistDomains(ps, sources[..i])), failed)
    {
      ghost var before := BlacklistDomains(ps, sources[..i]);
      var domains := LoadBlacklist(ps)(sources[i]);
      PutDenied(domains, db, failed, m, start, made + DenyAll(before));
      NextDenied(ps, sources, i, made);
      m := m + |domains|;
    }
    assert sources[..|sources|] == sources;
  }

  /** The inner loop over the rules of one override source; `n` writes, `made`, came before,
      and writes numbered in `failed` do nothing. */
  method PutAliases(cnames: seq<CName>, db: AdblockDB, failed: set<nat>,
      n: nat, ghost start: Tables, ghost made: seq<Write>)
    requires db.Open() && n == |made|
    requires db.Contents() == Apply(start, made, failed)
    modifies db.rewrites`db
    ensures db.Open()
    ensures db.Contents() == Apply(start, made + RewriteAll(cnames), failed)
  {
    assert made + RewriteAll(cnames[..0]) == made;
    for j := 0 to |cnames|
      invariant db.Open()
      invariant db.Contents() == Apply(start, made + RewriteAll(cnames[..j]), failed)
    {
      ghost var done := made + RewriteAll(cnames[..j]);
      var _ := db.rewrites.PutAlias(cnames[j].domain, cnames[j].alias, n + j !in failed);
      ApplySnoc(start, done, Rewrite(cnames[j]), failed);
      assert made + RewriteAll(cnames[..j + 1]) == done + [Rewrite(cnames[j])];
    }
    assert cnames[..|cnames|] == cnames;
  }

  lemma {:induction false} NextRewrites(ps: LineParsers, sources: seq<Source<OverrideFormat>>, i: nat, made: seq<Write>)
    requires i < |sources|
    ensures var before, loaded := Overrides(ps, sources[..i]), LoadRewrites(ps)(sources[i]);
            && Overrides(ps, sources[..i + 1]) == before + loaded
            && made + RewriteAll(before + loaded) == made + RewriteAll(before) + RewriteAll(loaded)
  {
    var before, loaded := Overrides(ps, sources[..i]), LoadRewrites(ps)(sources[i]);
    FlatMapNext(sources, LoadRewrites(ps), i);
    RewriteAllConcat(before, loaded);
    Associate(made, RewriteAll(before), RewriteAll(loaded));
  }

  /** The outer loop, over the override sources. */
  method CompileRewrites(ps: LineParsers, sources: seq<Source<OverrideFormat>>, db: AdblockDB, failed: set<nat>,
      n: nat, ghost start: Tables, ghost made: seq<Write>) returns (m: nat)
    requires db.Open() && n == |made|
    requires db.Contents() == Apply(start, made, failed)
    modifies db.rewrites`db
    ensures db.Open() && m == n + |Overrides(ps, sources)|
    ensures db.Contents() == Apply(start, made + RewriteAll(Overrides(ps, sources)), failed)
  {
    m := n;
    assert made + RewriteAll(Overrides(ps, sources[..0])) == made;
    for i := 0 to |sources|
      invariant db.Open()
      invariant m == n + |Overrides(ps, sources[..i])|
      invariant db.Contents() == Apply(start, made + RewriteAll(Overrides(ps, sources[..i])), failed)
    {
      ghost var before := Overrides(ps, sources[..i]);
      var cnames := LoadRewrites(ps)(sources[i]);
      PutAliases(cnames, db, failed, m, start, made + RewriteAll(before));
      NextRewrites(ps, sources, i, made);
      m := m + |cnames|;
    }
    assert sources[..|sources|] == sources;
  }

  /** `compile`: whitelist, blacklist and rewrites into an open database. */
  method Compile(ps: LineParsers, config: Config, db: AdblockDB, failed: set<nat>)
    requires db.Open()
    modifies db.blacklist`db, db.whitelist`db, db.rewrites`db
    ensures db.Open()
    ensures db.Contents() == Apply(old(db.Contents()), Writes(ps, config), failed)
  {
    ghost var start := db.Contents();
    ghost var allowed := AllowAll(WhitelistDomains(ps, config.whitelist));
    ghost var denied := DenyAll(BlacklistDomains(ps, config.blacklist));
    var n := CompileWhitelist(ps, config.whitelist, db, failed, 0, start, []);
    assert [] + allowed == allowed;
    n := CompileBlacklist(ps, config.blacklist, db, failed, n, start, allowed);
    n := CompileRewrites(ps, config.overrides, db, failed, n, start, allowed + denied);
  }
}

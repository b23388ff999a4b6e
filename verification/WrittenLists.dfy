/** End to end: from names written into the texts of sources, in each of the formats, to the
    decision on a query, in terms of texts alone. */
module WrittenLists {
  import opened Text
  import opened Parsers
  import opened HostLines
  import opened ZoneLines
  import opened Db
  import opened Rules
  import opened Compiler
  import opened Meaning

  // ---------- names written into texts ----------

  /** A name as it is written, and the ASCII form that the libraries make of it. */
  datatype Name = Name(text: string, ascii: string)

  datatype ZoneRecord = ZoneRecord(owner: Name, target: Name)

  /** The text of a source: one name or record a line, each line with this ending. */
  datatype Page =
    | Unfetched
    | DomainList(names: seq<Name>, ending: string)
    | HostsFile(quad: seq<string>, space: string, names: seq<Name>, ending: string)
    | ZoneFile(before: string, keyword: string, after: string, records: seq<ZoneRecord>, ending: string)

  /** A whole name without white space that the libraries accept. */
  ghost predicate Readable(lib: Lib, n: Name) {
    && WholeName(n.text) && NoSpace(n.text)
    && lib.toAscii(n.text) == Some(n.ascii)
    && if StartsWith(n.text, "*.") then '*' !in n.text[2..] && lib.accepts(n.text[2..]) else lib.accepts(n.text)
  }

  ghost predicate PageOk(lib: Lib, page: Page) {
    match page
    case Unfetched => true
    case DomainList(names, ending) =>
      IsEnding(ending) && forall k :: 0 <= k < |names| ==> Readable(lib, names[k])
    case HostsFile(quad, space, names, ending) =>
      && IsEnding(ending) && HostLine(lib.isDigit, quad, space, "")
      && '\n' !in Quad(quad) + space
      && forall k :: 0 <= k < |names| ==> Readable(lib, names[k])
    case ZoneFile(before, keyword, after, records, ending) =>
      && IsEnding(ending) && Runs(before) && Runs(after) && '\n' !in before && '\n' !in after
      && (keyword == "CNAME" || keyword == "cname")
      && forall k :: 0 <= k < |records| ==> Readable(lib, records[k].owner) && Readable(lib, records[k].target)
  }

  predicate IsEnding(ending: string) {
    ending == "\n" || ending == "\r\n"
  }

  function LinesOn(page: Page): seq<string>
    requires page.HostsFile? ==> |page.quad| == 4
  {
    match page
    case Unfetched => []
    case DomainList(names, _) => seq(|names|, k requires 0 <= k < |names| => names[k].text)
    case HostsFile(quad, space, names, _) =>
      seq(|names|, k requires 0 <= k < |names| => Quad(quad) + space + names[k].text)
    case ZoneFile(before, keyword, after, records, _) =>
      seq(|records|, k requires 0 <= k < |records| =>
        ZoneLine(records[k].owner.text, before, keyword, after, records[k].target.text, ""))
  }

  function TextOn(page: Page): Option<string>
    requires page.HostsFile? ==> |page.quad| == 4
  {
    if page.Unfetched? then None else Some(Unlines(LinesOn(page), page.ending))
  }

  /** The names that a page lists: of a zone record, its owner. */
  function NamesOn(page: Page): seq<string> {
    match page
    case Unfetched => []
    case DomainList(names, _) => seq(|names|, k requires 0 <= k < |names| => names[k].ascii)
    case HostsFile(_, _, names, _) => seq(|names|, k requires 0 <= k < |names| => names[k].ascii)
    case ZoneFile(_, _, _, records, _) => seq(|records|, k requires 0 <= k < |records| => records[k].owner.ascii)
  }

  function RecordsOn(page: Page): seq<CName> {
    if page.ZoneFile?
    then seq(|page.records|, k requires 0 <= k < |page.records| =>
           CName(page.records[k].owner.ascii, page.records[k].target.ascii))
    else []
  }

  function Concat<T>(lists: seq<seq<T>>): seq<T> {
    if lists == [] then [] else lists[0] + Concat(lists[1..])
  }

  function AllNames(pages: seq<Page>): seq<string> {
    Concat(seq(|pages|, i requires 0 <= i < |pages| => NamesOn(pages[i])))
  }

  function AllRecords(pages: seq<Page>): seq<CName> {
    Concat(seq(|pages|, i requires 0 <= i < |pages| => RecordsOn(pages[i])))
  }

  // ---------- reading the texts ----------

  lemma {:induction false} ReadableName(lib: Lib, n: Name)
    requires Readable(lib, n)
    ensures ParseDomain(lib, n.text) == Some(n.ascii)
    ensures n.text != "" && '\n' !in n.text && !IsSpace(n.text[0]) && n.text[|n.text| - 1] != '\r'
  {
    ParseWholeName(lib, n.text);
    assert !IsSpace(n.text[0]) && !IsSpace(n.text[|n.text| - 1]);
  }

  lemma {:induction false} HostsLineReads(lib: Lib, quad: seq<string>, space: string, n: Name)
    requires Readable(lib, n) && HostLine(lib.isDigit, quad, space, "")
    ensures HostDomain(lib, Quad(quad) + space + n.text) == Some(n.ascii)
  {
    ReadableName(lib, n);
    HostWholeName(lib, quad, space, n.text);
  }

  lemma {:induction false} ZoneLineReads(lib: Lib, before: string, keyword: string, after: string, r: ZoneRecord)
    requires Readable(lib, r.owner) && Readable(lib, r.target)
    requires Runs(before) && Runs(after) && (keyword == "CNAME" || keyword == "cname")
    ensures ParseCName(lib, ZoneLine(r.owner.text, before, keyword, after, r.target.text, ""))
         == Some(CName(r.owner.ascii, r.target.ascii))
  {
    ReadableName(lib, r.owner);
    ReadableName(lib, r.target);
    ZoneLineMeansNames(lib, r.owner.text, before, keyword, after, r.target.text, "");
  }

  /** A line that comes back whole from a text of lines with this ending. */
  predicate IsLine(line: string) {
    '\n' !in line && (line != "" ==> line[|line| - 1] != '\r')
  }

  lemma {:induction false} PlainLine(lead: string, n: Name, lib: Lib)
    requires Readable(lib, n) && '\n' !in lead
    ensures IsLine(lead + n.text)
  {
    ReadableName(lib, n);
    var line := lead + n.text;
    assert line[|line| - 1] == n.text[|n.text| - 1];
  }

  lemma {:induction false} ZoneIsLine(lib: Lib, before: string, keyword: string, after: string, r: ZoneRecord)
    requires Readable(lib, r.owner) && Readable(lib, r.target)
    requires '\n' !in before && '\n' !in after && (keyword == "CNAME" || keyword == "cname")
    ensures IsLine(ZoneLine(r.owner.text, before, keyword, after, r.target.text, ""))
  {
    ReadableName(lib, r.owner);
    ReadableName(lib, r.target);
    var line := ZoneLine(r.owner.text, before, keyword, after, r.target.text, "");
    assert line == r.owner.text + before + keyword + after + r.target.text + ".";
    assert line[|line| - 1] == '.';
  }

  lemma {:induction false} FilterAll<T>(lines: seq<string>, parse: string -> Option<T>, values: seq<T>)
    requires |lines| == |values| && forall k :: 0 <= k < |lines| ==> parse(lines[k]) == Some(values[k])
    ensures FilterMap(lines, parse) == values
  {
    if lines == [] {
    } else {
      var n := |lines| - 1;
      FilterAll(lines[..n], parse, values[..n]);
      assert values == values[..n] + [values[n]];
    }
  }

  lemma {:induction false} LoadAll<T>(lines: seq<string>, ending: string, parse: string -> Option<T>, values: seq<T>)
    requires IsEnding(ending) && forall k :: 0 <= k < |lines| ==> IsLine(lines[k])
    requires |lines| == |values| && forall k :: 0 <= k < |lines| ==> parse(lines[k]) == Some(values[k])
    ensures Load(Some(Unlines(lines, ending)), parse) == values
  {
    LinesRoundTrip(lines, ending);
    FilterAll(lines, parse, values);
  }

  lemma {:induction false} DomainListLoads(lib: Lib, page: Page)
    requires page.DomainList? && PageOk(lib, page)
    ensures Load(TextOn(page), (line: string) => ParseDomain(lib, line)) == NamesOn(page)
  {
    forall k | 0 <= k < |page.names|
      ensures IsLine(LinesOn(page)[k]) && ParseDomain(lib, LinesOn(page)[k]) == Some(NamesOn(page)[k])
    {
      ReadableName(lib, page.names[k]);
    }
    LoadAll(LinesOn(page), page.ending, (line: string) => ParseDomain(lib, line), NamesOn(page));
  }

  lemma {:induction false} HostsFileLoads(lib: Lib, page: Page)
    requires page.HostsFile? && PageOk(lib, page)
    ensures Load(TextOn(page), (line: string) => HostDomain(lib, line)) == NamesOn(page)
  {
    forall k | 0 <= k < |page.names|
      ensures IsLine(LinesOn(page)[k]) && HostDomain(lib, LinesOn(page)[k]) == Some(NamesOn(page)[k])
    {
      PlainLine(Quad(page.quad) + page.space, page.names[k], lib);
      HostsLineReads(lib, page.quad, page.space, page.names[k]);
    }
    LoadAll(LinesOn(page), page.ending, (line: string) => HostDomain(lib, line), NamesOn(page));
  }

  lemma {:induction false} ZoneFileLoads(lib: Lib, page: Page)
    requires page.ZoneFile? && PageOk(lib, page)
    ensures Load(TextOn(page), (line: string) => ParseCName(lib, line)) == RecordsOn(page)
    ensures Load(TextOn(page), (line: string) => IntoDomain(ParseCName(lib, line))) == NamesOn(page)
  {
    forall k | 0 <= k < |page.records|
      ensures IsLine(LinesOn(page)[k]) && ParseCName(lib, LinesOn(page)[k]) == Some(RecordsOn(page)[k])
      ensures NamesOn(page)[k] == RecordsOn(page)[k].domain
    {
      ZoneIsLine(lib, page.before, page.keyword, page.after, page.records[k]);
      ZoneLineReads(lib, page.before, page.keyword, page.after, page.records[k]);
    }
    LoadAll(LinesOn(page), page.ending, (line: string) => ParseCName(lib, line), RecordsOn(page));
    LoadAll(LinesOn(page), page.ending, (line: string) => IntoDomain(ParseCName(lib, line)), NamesOn(page));
  }

  // ---------- pages as sources ----------

  /** The source has the text of the page, and the format in which it is written. */
  ghost predicate IsBlacklist(lib: Lib, source: Source<BlacklistFormat>, page: Page) {
    && PageOk(lib, page) && source.text == TextOn(page)
    && match page
       case Unfetched => true
       case DomainList(_, _) => source.format == BlacklistFormat.Domains
       case HostsFile(_, _, _, _) => source.format == BlacklistFormat.Hosts
       case ZoneFile(_, _, _, _, _) => false
  }

  ghost predicate IsWhitelist(lib: Lib, source: Source<WhitelistFormat>, page: Page) {
    && PageOk(lib, page) && source.text == TextOn(page)
    && match page
       case Unfetched => true
       case DomainList(_, _) => source.format == WhitelistFormat.Domains
       case HostsFile(_, _, _, _) => source.format == WhitelistFormat.Hosts
       case ZoneFile(_, _, _, _, _) => source.format == WhitelistFormat.Zone
  }

  ghost predicate IsOverride(lib: Lib, source: Source<OverrideFormat>, page: Page) {
    && PageOk(lib, page) && source.text == TextOn(page)
    && (page.Unfetched? || (page.ZoneFile? && source.format == Cname))
  }

  lemma {:induction false} BlacklistLoads(lib: Lib, source: Source<BlacklistFormat>, page: Page)
    requires IsBlacklist(lib, source, page)
    ensures LoadBlacklist(ProgramParsers(lib))(source) == NamesOn(page)
  {
    match page
    case Unfetched =>
    case DomainList(_, _) => DomainListLoads(lib, page);
    case HostsFile(_, _, _, _) => HostsFileLoads(lib, page);
  }

  lemma {:induction false} WhitelistLoads(lib: Lib, source: Source<WhitelistFormat>, page: Page)
    requires IsWhitelist(lib, source, page)
    ensures LoadWhitelist(ProgramParsers(lib))(source) == NamesOn(page)
  {
    match page
    case Unfetched =>
    case DomainList(_, _) => DomainListLoads(lib, page);
    case HostsFile(_, _, _, _) => HostsFileLoads(lib, page);
    case ZoneFile(_, _, _, _, _) =>
      ZoneFileLoads(lib, page);
      SameLoad(source.text, WhitelistParser(ProgramParsers(lib), Zone), (line: string) => IntoDomain(ParseCName(lib, line)));
  }

  lemma {:induction false} SameLoad<T(!new)>(text: Option<string>, parse: string -> Option<T>, other: string -> Option<T>)
    requires forall line :: parse(line) == other(line)
    ensures Load(text, parse) == Load(text, other)
  {
    SameFilter(LinesOf(text), parse, other);
  }

  lemma {:induction false} SameFilter<T(!new)>(lines: seq<string>, parse: string -> Option<T>, other: string -> Option<T>)
    requires forall line :: parse(line) == other(line)
    ensures FilterMap(lines, parse) == FilterMap(lines, other)
  {
    if lines == [] {
    } else {
      SameFilter(lines[..|lines| - 1], parse, other);
    }
  }

  lemma {:induction false} OverrideLoads(lib: Lib, source: Source<OverrideFormat>, page: Page)
    requires IsOverride(lib, source, page)
    ensures LoadRewrites(ProgramParsers(lib))(source) == RecordsOn(page)
  {
    if page.ZoneFile? {
      ZoneFileLoads(lib, page);
    }
  }

  lemma {:induction false} ConcatSnoc<T>(lists: seq<seq<T>>, list: seq<T>)
    ensures Concat(lists + [list]) == Concat(lists) + list
  {
    if lists == [] {
      assert Concat([list]) == list + Concat<T>([]);
      assert lists + [list] == [list];
    } else {
      assert (lists + [list])[1..] == lists[1..] + [list];
      ConcatSnoc(lists[1..], list);
      Associate(lists[0], Concat(lists[1..]), list);
    }
  }

  lemma {:induction false} FlatMapIsConcat<S, T>(sources: seq<S>, load: S -> seq<T>, lists: seq<seq<T>>)
    requires |sources| == |lists| && forall i :: 0 <= i < |sources| ==> load(sources[i]) == lists[i]
    ensures FlatMap(sources, load) == Concat(lists)
  {
    if sources == [] {
    } else {
      var n := |sources| - 1;
      FlatMapIsConcat(sources[..n], load, lists[..n]);
      ConcatSnoc(lists[..n], lists[n]);
      assert lists == lists[..n] + [lists[n]];
    }
  }

  /** The sources of a configuration are these pages. */
  ghost predicate IsWritten(lib: Lib, config: Config, denied: seq<Page>, allowed: seq<Page>, rewritten: seq<Page>) {
    && |config.blacklist| == |denied| && |config.whitelist| == |allowed| && |config.overrides| == |rewritten|
    && (forall i :: 0 <= i < |denied| ==> IsBlacklist(lib, config.blacklist[i], denied[i]))
    && (forall i :: 0 <= i < |allowed| ==> IsWhitelist(lib, config.whitelist[i], allowed[i]))
    && (forall i :: 0 <= i < |rewritten| ==> IsOverride(lib, config.overrides[i], rewritten[i]))
  }

  lemma {:induction false} BlacklistsAreRead(lib: Lib, sources: seq<Source<BlacklistFormat>>, pages: seq<Page>)
    requires |sources| == |pages| && forall i :: 0 <= i < |pages| ==> IsBlacklist(lib, sources[i], pages[i])
    ensures BlacklistDomains(ProgramParsers(lib), sources) == AllNames(pages)
  {
    var lists := seq(|pages|, i requires 0 <= i < |pages| => NamesOn(pages[i]));
    forall i | 0 <= i < |sources|
      ensures LoadBlacklist(ProgramParsers(lib))(sources[i]) == lists[i]
    {
      BlacklistLoads(lib, sources[i], pages[i]);
    }
    FlatMapIsConcat(sources, LoadBlacklist(ProgramParsers(lib)), lists);
  }

  lemma {:induction false} WhitelistsAreRead(lib: Lib, sources: seq<Source<WhitelistFormat>>, pages: seq<Page>)
    requires |sources| == |pages| && forall i :: 0 <= i < |pages| ==> IsWhitelist(lib, sources[i], pages[i])
    ensures WhitelistDomains(ProgramParsers(lib), sources) == AllNames(pages)
  {
    var lists := seq(|pages|, i requires 0 <= i < |pages| => NamesOn(pages[i]));
    forall i | 0 <= i < |sources|
      ensures LoadWhitelist(ProgramParsers(lib))(sources[i]) == lists[i]
    {
      WhitelistLoads(lib, sources[i], pages[i]);
    }
    FlatMapIsConcat(sources, LoadWhitelist(ProgramParsers(lib)), lists);
  }

  lemma {:induction false} OverridesAreRead(lib: Lib, sources: seq<Source<OverrideFormat>>, pages: seq<Page>)
    requires |sources| == |pages| && forall i :: 0 <= i < |pages| ==> IsOverride(lib, sources[i], pages[i])
    ensures Overrides(ProgramParsers(lib), sources) == AllRecords(pages)
  {
    var lists := seq(|pages|, i requires 0 <= i < |pages| => RecordsOn(pages[i]));
    forall i | 0 <= i < |sources|
      ensures LoadRewrites(ProgramParsers(lib))(sources[i]) == lists[i]
    {
      OverrideLoads(lib, sources[i], pages[i]);
    }
    FlatMapIsConcat(sources, LoadRewrites(ProgramParsers(lib)), lists);
  }

  /** Reading gives exactly the names and records written, in order. */
  lemma {:induction false} WrittenIsRead(lib: Lib, config: Config, denied: seq<Page>, allowed: seq<Page>, rewritten: seq<Page>)
    requires IsWritten(lib, config, denied, allowed, rewritten)
    ensures BlacklistDomains(ProgramParsers(lib), config.blacklist) == AllNames(denied)
    ensures WhitelistDomains(ProgramParsers(lib), config.whitelist) == AllNames(allowed)
    ensures Overrides(ProgramParsers(lib), config.overrides) == AllRecords(rewritten)
  {
    BlacklistsAreRead(lib, config.blacklist, denied);
    WhitelistsAreRead(lib, config.whitelist, allowed);
    OverridesAreRead(lib, config.overrides, rewritten);
  }

  // ---------- covering in terms of texts ----------

  /** With a dot at its end. */
  function Dotted(text: string): string {
    if text != "" && text[|text| - 1] == '.' then text else text + "."
  }

  /** The rule text `key`, with its final dot, covers a query: it is the query, or it is a star
      and the query ends with what follows the star, with something in front of that. */
  predicate KeyCovers(key: string, query: string) {
    || key == query
    || (&& |key| > 2 && key[0] == '*' && key[1] == '.'
        && |query| >= |key| && query[|query| - |key| + 1..] == key[1..])
  }

  ghost predicate Listed(names: seq<string>, query: string) {
    exists i :: 0 <= i < |names| && KeyCovers(Dotted(names[i]), query)
  }

  /** Record `i` decides: it covers the query; among records with one owner it is the last;
      an owner that is the query itself beats every other, and a longer one a shorter one. */
  ghost predicate Decides(records: seq<CName>, query: string, i: nat) {
    && i < |records|
    && KeyCovers(Dotted(records[i].domain), query)
    && forall j: nat :: j < |records| && KeyCovers(Dotted(records[j].domain), query) ==>
         Beats(Dotted(records[i].domain), i, Dotted(records[j].domain), j, query)
  }

  predicate Beats(key: string, i: nat, other: string, j: nat, query: string) {
    if key == other then j <= i else key == query || (other != query && |other| < |key|)
  }

  lemma {:induction false} TailOf(name: seq<string>, i: nat)
    requires IsName(name) && 1 <= i < |name|
    ensures var query, tail := Absolute(name), "." + Absolute(name[i..]);
            |query| > |tail| && query[|query| - |tail|..] == tail
  {
    var rest := Absolute(name[1..]);
    assert Absolute(name) == name[0] + "." + rest;
    if i == 1 {
    } else {
      TailOf(name[1..], i - 1);
      assert name[1..][i - 1..] == name[i..];
    }
  }

  lemma {:induction false} FirstLabel(name: seq<string>)
    requires IsName(name) && name != []
    ensures |Absolute(name)| > |name[0]| > 0 && forall q :: 0 <= q < |name[0]| ==> Absolute(name)[q] != '.'
    ensures |name| == 1 ==> |Absolute(name)| == |name[0]| + 1
    ensures |name| > 1 ==> Absolute(name) == name[0] + "." + Absolute(name[1..])
  {
    assert forall q :: 0 <= q < |name[0]| ==> Absolute(name)[q] == name[0][q];
  }

  /** A dot inside the text of a name, not in front, stands before one of its suffixes. */
  lemma {:induction false} DotIsBoundary(name: seq<string>, p: nat) returns (i: nat)
    requires IsName(name) && 0 < p && p + 1 < |Absolute(name)| && Absolute(name)[p] == '.'
    ensures 1 <= i < |name| && Absolute(name)[p + 1..] == Absolute(name[i..])
  {
    FirstLabel(name);
    var first, rest := name[0], Absolute(name[1..]);
    if p == |first| {
      i := 1;
    } else {
      var q: nat := p - |first| - 1;
      assert rest[q] == Absolute(name)[p];
      FirstLabel(name[1..]);
      var k := DotIsBoundary(name[1..], q);
      i := k + 1;
      assert name[1..][k..] == name[i..];
    }
  }

  lemma {:induction false} StarKeyText(name: seq<string>, i: nat)
    requires IsName(name) && 1 <= i < |name|
    ensures StarKey(name[i..]) == "*" + ("." + Absolute(name[i..])) && |Absolute(name[i..])| > 1
  {
    assert StarKey(name[i..]) == "*." + Join(name[i..], '.') + ".";
    assert Absolute(name[i..])[0] == name[i][0];
  }

  lemma {:induction false} StarKeyCovers(name: seq<string>, i: nat)
    requires IsName(name) && 1 <= i < |name|
    ensures KeyCovers(StarKey(name[i..]), Absolute(name))
  {
    StarKeyText(name, i);
    TailOf(name, i);
  }

  /** The keys tried for a name are exactly the rule texts that cover it. */
  lemma {:induction false} KeysCover(name: seq<string>, key: string)
    requires IsName(name)
    ensures key in Keys(Absolute(name)) <==> KeyCovers(key, Absolute(name))
  {
    KeysAre(name);
    var keys, query := Keys(Absolute(name)), Absolute(name);
    if key in keys {
      var i :| 0 <= i < |keys| && keys[i] == key;
      if i > 0 {
        StarKeyCovers(name, i);
      }
    }
    assert keys[0] in keys;
    if KeyCovers(key, query) && key != query {
      var i := CoveringSuffix(name, key);
      assert keys[i] == StarKey(name[i..]);
    }
  }

  lemma {:induction false} CoveringSuffix(name: seq<string>, key: string) returns (i: nat)
    requires IsName(name) && KeyCovers(key, Absolute(name)) && key != Absolute(name)
    ensures 1 <= i < |name| && key == StarKey(name[i..])
  {
    var query := Absolute(name);
    var p := |query| - |key| + 1;
    assert query[p] == query[p..][0];
    i := DotIsBoundary(name, p);
    StarKeyText(name, i);
    assert query[p..] == "." + query[p + 1..];
    assert key == "*" + key[1..];
  }

  lemma {:induction false} LongerFirst(name: seq<string>, i: nat, j: nat)
    requires IsName(name) && 1 <= i < j < |name|
    ensures |StarKey(name[j..])| < |StarKey(name[i..])|
  {
    StarKeyText(name, i);
    StarKeyText(name, j);
    assert name[i..][j - i..] == name[j..];
    TailOf(name[i..], j - i);
  }

  // ---------- lookups in terms of texts ----------

  lemma {:induction false} DottedIsKey(text: string)
    ensures Dotted(text) == NormalizeName(text)
  {
  }

  /** The first key of a query that is in the table, if there is one. */
  lemma {:induction false} FirstKey(m: map<string, string>, keys: seq<string>) returns (at: nat)
    requires exists k :: 0 <= k < |keys| && keys[k] in m
    ensures at < |keys| && keys[at] in m && forall l :: 0 <= l < at ==> keys[l] !in m
    ensures FirstHit(m, map[], keys) == Ok(Some(m[keys[at]]))
  {
    if keys[0] in m {
      at := 0;
    } else {
      var k :| 0 <= k < |keys| && keys[k] in m;
      assert keys[1..][k - 1] in m;
      var rest := FirstKey(m, keys[1..]);
      at := rest + 1;
    }
  }

  lemma {:induction false} FlagIsListed(domains: seq<string>, name: seq<string>, key: string)
    requires IsName(name) && key in Keys(Absolute(name)) && key in Table(Flags(domains))
    ensures Listed(domains, Absolute(name))
  {
    FlagKey(domains, key);
    var i :| 0 <= i < |domains| && NormalizeName(domains[i]) == key;
    DottedIsKey(domains[i]);
    KeysCover(name, key);
  }

  lemma {:induction false} FlagsByText(domains: seq<string>, name: seq<string>)
    requires IsName(name)
    ensures Lookup(Table(Flags(domains)), Absolute(name)).Some? <==> Listed(domains, Absolute(name))
  {
    var m, keys := Table(Flags(domains)), Keys(Absolute(name));
    if Listed(domains, Absolute(name)) {
      var i :| 0 <= i < |domains| && KeyCovers(Dotted(domains[i]), Absolute(name));
      var key := Dotted(domains[i]);
      DottedIsKey(domains[i]);
      FlagKey(domains, key);
      KeysCover(name, key);
      var k :| 0 <= k < |keys| && keys[k] == key;
      var at := FirstKey(m, keys);
    } else {
      forall l | 0 <= l < |keys|
        ensures keys[l] !in m
      {
        if keys[l] in m {
          FlagIsListed(domains, name, keys[l]);
        }
      }
      FirstHitNone(m, keys);
    }
  }

  ghost predicate SomeCovers(records: seq<CName>, query: string) {
    exists i :: 0 <= i < |records| && KeyCovers(Dotted(records[i].domain), query)
  }

  lemma {:induction false} InAliases(records: seq<CName>, i: nat)
    requires i < |records|
    ensures NormalizeName(records[i].domain) in Table(Aliases(records))
  {
    InTable(Aliases(records), i);
  }

  lemma {:induction false} InTable(entries: seq<Entry>, i: nat)
    requires i < |entries|
    ensures NormalizeName(entries[i].domain) in Table(entries)
  {
    var n := |entries| - 1;
    if i == n {
    } else {
      InTable(entries[..n], i);
    }
  }

  /** The record behind the first key that is there decides. */
  lemma {:induction false} AliasByText(records: seq<CName>, name: seq<string>) returns (i: nat)
    requires IsName(name) && SomeCovers(records, Absolute(name))
    ensures Decides(records, Absolute(name), i)
    ensures Lookup(Table(Aliases(records)), Absolute(name)) == Some(Dotted(records[i].alias))
  {
    var m, keys := Table(Aliases(records)), Keys(Absolute(name));
    var c :| 0 <= c < |records| && KeyCovers(Dotted(records[c].domain), Absolute(name));
    var cat := CoveredKey(records, name, c);
    var at := FirstKey(m, keys);
    i := LastRecord(records, keys[at]);
    FirstDecides(records, name, at, i);
  }

  lemma {:induction false} LastRecord(records: seq<CName>, key: string) returns (i: nat)
    requires key in Table(Aliases(records))
    ensures i < |records| && IsLast(Aliases(records), key, i)
    ensures Table(Aliases(records))[key] == Dotted(records[i].alias)
  {
    i := TableSource(Aliases(records), key);
    DottedIsKey(records[i].alias);
  }

  lemma {:induction false} FirstDecides(records: seq<CName>, name: seq<string>, at: nat, i: nat)
    requires IsName(name) && at < |Keys(Absolute(name))| && IsLast(Aliases(records), Keys(Absolute(name))[at], i)
    requires forall l :: 0 <= l < at ==> Keys(Absolute(name))[l] !in Table(Aliases(records))
    ensures Decides(records, Absolute(name), i)
  {
    var keys, query := Keys(Absolute(name)), Absolute(name);
    DottedIsKey(records[i].domain);
    assert keys[at] in keys;
    KeysCover(name, keys[at]);
    forall j: nat | j < |records| && KeyCovers(Dotted(records[j].domain), query)
      ensures Beats(Dotted(records[i].domain), i, Dotted(records[j].domain), j, query)
    {
      var l := CoveredKey(records, name, j);
      assert keys[l] == keys[at] ==> j <= i by {
        assert j > i ==> NormalizeName(Aliases(records)[j].domain) != keys[at];
      }
      FirstBeats(name, at, l, i, j);
    }
  }

  lemma {:induction false} CoveredKey(records: seq<CName>, name: seq<string>, j: nat) returns (l: nat)
    requires IsName(name) && j < |records| && KeyCovers(Dotted(records[j].domain), Absolute(name))
    ensures l < |Keys(Absolute(name))| && Keys(Absolute(name))[l] == Dotted(records[j].domain) == NormalizeName(records[j].domain)
    ensures Dotted(records[j].domain) in Table(Aliases(records))
  {
    DottedIsKey(records[j].domain);
    InAliases(records, j);
    KeysCover(name, Dotted(records[j].domain));
    var k :| 0 <= k < |Keys(Absolute(name))| && Keys(Absolute(name))[k] == Dotted(records[j].domain);
    l := k;
  }

  lemma {:induction false} FirstBeats(name: seq<string>, at: nat, l: nat, i: nat, j: nat)
    requires IsName(name) && at <= l < |Keys(Absolute(name))|
    requires Keys(Absolute(name))[l] == Keys(Absolute(name))[at] ==> j <= i
    ensures Beats(Keys(Absolute(name))[at], i, Keys(Absolute(name))[l], j, Absolute(name))
  {
    KeysAre(name);
    var keys := Keys(Absolute(name));
    if 0 < at < l {
      LongerFirst(name, at, l);
      StarBeatsNoQuery(name, at, l);
    }
  }

  /** Of two star keys the later one is not the query. */
  lemma {:induction false} StarBeatsNoQuery(name: seq<string>, at: nat, l: nat)
    requires IsName(name) && 1 <= at < l < |name|
    ensures StarKey(name[l..]) != Absolute(name)
  {
    if StarKey(name[l..]) == Absolute(name) {
      RootKeyTwice(name, l);
    }
  }

  /** At most one record decides. */
  lemma {:induction false} DecidesOnce(records: seq<CName>, query: string, i: nat, j: nat)
    requires Decides(records, query, i) && Decides(records, query, j)
    ensures i == j
  {
    assert Beats(Dotted(records[i].domain), i, Dotted(records[j].domain), j, query);
    assert Beats(Dotted(records[j].domain), j, Dotted(records[i].domain), i, query);
  }

  lemma {:induction false} AliasIsCovered(records: seq<CName>, name: seq<string>, key: string)
    requires IsName(name) && key in Keys(Absolute(name)) && key in Table(Aliases(records))
    ensures SomeCovers(records, Absolute(name))
  {
    var i := TableSource(Aliases(records), key);
    DottedIsKey(records[i].domain);
    KeysCover(name, key);
  }

  lemma {:induction false} NoAliasByText(records: seq<CName>, name: seq<string>)
    requires IsName(name) && !SomeCovers(records, Absolute(name))
    ensures Lookup(Table(Aliases(records)), Absolute(name)) == None
  {
    var m, keys := Table(Aliases(records)), Keys(Absolute(name));
    forall l | 0 <= l < |keys|
      ensures keys[l] !in m
    {
      if keys[l] in m {
        AliasIsCovered(records, name, keys[l]);
      }
    }
    FirstHitNone(m, keys);
  }

  // ---------- end to end ----------

  /** The decision on a query as these names and records, read as texts, say it: if some record
      covers the query the deciding one rewrites it; else it is blocked if it is on the first
      list of names and not on the second; else it is forwarded. */
  ghost predicate AsWritten(decision: Decision, denied: seq<string>, allowed: seq<string>, records: seq<CName>, query: string) {
    if SomeCovers(records, query)
    then exists i: nat :: Decides(records, query, i) && decision == Rewritten(Dotted(records[i].alias))
    else decision == if Listed(denied, query) && !Listed(allowed, query) then Blocked else Forwarded
  }

  lemma {:induction false} TablesDecide(denied: seq<string>, allowed: seq<string>, records: seq<CName>, name: seq<string>)
    requires IsName(name)
    ensures AsWritten(Decide(TablesOf(denied, allowed, records), Absolute(name)), denied, allowed, records, Absolute(name))
  {
    FlagsByText(denied, name);
    FlagsByText(allowed, name);
    if SomeCovers(records, Absolute(name)) {
      var i := AliasByText(records, name);
    } else {
      NoAliasByText(records, name);
    }
  }

  /** For any written configuration, whatever sources could not be fetched, the program's own
      parsers, compiler and lookups decide on every name as the written names say. */
  lemma {:induction false} WrittenListsDecide(lib: Lib, config: Config, denied: seq<Page>, allowed: seq<Page>, rewritten: seq<Page>, name: seq<string>)
    requires IsWritten(lib, config, denied, allowed, rewritten) && IsName(name)
    ensures AsWritten(Decide(Apply(EMPTY, Writes(ProgramParsers(lib), config), {}), Absolute(name)),
                      AllNames(denied), AllNames(allowed), AllRecords(rewritten), Absolute(name))
  {
    WrittenIsRead(lib, config, denied, allowed, rewritten);
    CompiledTables(ProgramParsers(lib), config);
    TablesDecide(AllNames(denied), AllNames(allowed), AllRecords(rewritten), name);
  }
}

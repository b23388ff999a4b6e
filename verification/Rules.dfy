/** Rules as lists of labels, and what the string index means in terms of them. */
module Rules {
  import opened Text
  import opened Db

  /** Labels of an absolute name: non-empty and without dots. */
  ghost predicate IsName(labels: seq<string>) {
    forall i :: 0 <= i < |labels| ==> labels[i] != "" && '.' !in labels[i]
  }

  /** The text of an absolute name, with its trailing dot; the root is a single dot. */
  function Absolute(labels: seq<string>): string {
    Join(labels, '.') + "."
  }

  /** A rule covers one name, or every name that has more labels than its suffix and ends
      with it. */
  datatype Rule = Exact(labels: seq<string>) | Wildcard(suffix: seq<string>)

  /** Labels written in a rule, without its optional trailing dot. */
  function RuleLabels(text: string): seq<string> {
    var body := if EndsWithDot(text) then text[..|text| - 1] else text;
    if body == "" then [] else Split(body, '.')
  }

  /** A first label `*` in front of other labels makes a wildcard. */
  function RuleOf(text: string): Rule {
    var labels := RuleLabels(text);
    if |labels| > 1 && labels[0] == "*" then Wildcard(labels[1..]) else Exact(labels)
  }

  predicate Covers(rule: Rule, name: seq<string>) {
    match rule
    case Exact(labels) => labels == name
    case Wildcard(suffix) => |suffix| < |name| && name[|name| - |suffix|..] == suffix
  }

  /** How specific a rule is: the number of labels it fixes. */
  function Rank(rule: Rule): nat {
    match rule
    case Exact(labels) => |labels|
    case Wildcard(suffix) => |suffix|
  }

  // ---------- texts, labels and keys ----------

  lemma {:induction false} NonEmptyAll(parts: seq<string>)
    requires forall i :: 0 <= i < |parts| ==> parts[i] != ""
    ensures NonEmptyParts(parts) == parts && NonEmptyParts(parts + [""]) == parts
  {
    if parts == [] {
      assert parts + [""] == [""];
    } else {
      NonEmptyAll(parts[1..]);
      assert (parts + [""])[1..] == parts[1..] + [""];
    }
  }

  lemma {:induction false} JoinSnoc(parts: seq<string>, last: string)
    requires |parts| > 0
    ensures Join(parts + [last], '.') == Join(parts, '.') + "." + last
  {
    if |parts| == 1 {
      assert (parts + [last])[1..] == [last];
    } else {
      assert (parts + [last])[1..] == parts[1..] + [last];
      JoinSnoc(parts[1..], last);
    }
  }

  /** Splitting the text of a name and dropping empty parts gives back its labels. */
  lemma {:induction false} LabelsOfAbsolute(labels: seq<string>)
    requires IsName(labels)
    ensures LabelsOf(Absolute(labels)) == labels
  {
    if labels == [] {
      assert Absolute(labels) == ".";
      assert Split(".", '.') == ["", ""];
      assert ["", ""][1..] == [""];
    } else {
      JoinSnoc(labels, "");
      assert Join(labels + [""], '.') == Absolute(labels);
      SplitJoin(labels + [""], '.');
      NonEmptyAll(labels);
    }
  }

  lemma {:induction false} JoinEmpty(parts: seq<string>)
    requires |parts| > 0 && Join(parts, '.') == ""
    ensures parts == [""]
  {
  }

  /** A normalised rule is the text of a name exactly when the rule has its labels. */
  lemma {:induction false} KeyIsName(text: string, labels: seq<string>)
    requires IsName(labels)
    ensures NormalizeName(text) == Absolute(labels) <==> RuleLabels(text) == labels
  {
    var body := if EndsWithDot(text) then text[..|text| - 1] else text;
    assert NormalizeName(text) == body + ".";
    assert body == (body + ".")[..|body|];
    var joined := Join(labels, '.');
    assert joined == (joined + ".")[..|joined|];
    assert NormalizeName(text) == Absolute(labels) <==> body == joined;
    if body == "" {
      if labels != [] && joined == "" {
        JoinEmpty(labels);
      }
    } else {
      JoinSplit(body, '.');
      if labels != [] {
        SplitJoin(labels, '.');
      }
    }
  }

  /** The wildcard key of a suffix is the text of the name `*` followed by that suffix. */
  lemma {:induction false} StarKeyIsName(suffix: seq<string>)
    requires IsName(suffix) && suffix != []
    ensures StarKey(suffix) == Absolute(["*"] + suffix) && IsName(["*"] + suffix)
  {
    assert (["*"] + suffix)[1..] == suffix;
    assert '.' !in "*";
  }

  lemma {:induction false} StarKeyIsRule(text: string, suffix: seq<string>)
    requires IsName(suffix) && suffix != []
    ensures NormalizeName(text) == StarKey(suffix) <==> RuleOf(text) == Wildcard(suffix)
  {
    StarKeyIsName(suffix);
    KeyIsName(text, ["*"] + suffix);
    var labels := RuleLabels(text);
    assert |labels| > 0 ==> labels == [labels[0]] + labels[1..];
    assert (["*"] + suffix)[1..] == suffix;
  }

  lemma {:induction false} CoversThenKey(text: string, name: seq<string>)
    requires IsName(name) && Covers(RuleOf(text), name)
    ensures NormalizeName(text) in Keys(Absolute(name))
  {
    KeysAre(name);
    var keys := Keys(Absolute(name));
    match RuleOf(text)
    case Exact(_) =>
      KeyIsName(text, name);
      assert keys[0] in keys;
    case Wildcard(suffix) =>
      StarKeyIsRule(text, suffix);
      assert keys[|name| - |suffix|] in keys;
  }

  lemma {:induction false} KeyThenCovers(text: string, name: seq<string>)
    requires IsName(name) && NormalizeName(text) in Keys(Absolute(name))
    ensures Covers(RuleOf(text), name)
  {
    KeysAre(name);
    var keys := Keys(Absolute(name));
    var i :| 0 <= i < |keys| && keys[i] == NormalizeName(text);
    if i == 0 {
      KeyIsName(text, name);
      LabelsCoverThemselves(text, name);
    } else {
      StarKeyIsRule(text, name[i..]);
    }
  }

  lemma {:induction false} LabelsCoverThemselves(text: string, name: seq<string>)
    requires RuleLabels(text) == name
    ensures Covers(RuleOf(text), name)
  {
  }

  /** A rule covers a name exactly when its key is one of the keys tried for that name. */
  lemma {:induction false} CoversIffKey(text: string, name: seq<string>)
    requires IsName(name)
    ensures Covers(RuleOf(text), name) <==> NormalizeName(text) in Keys(Absolute(name))
  {
    if Covers(RuleOf(text), name) {
      CoversThenKey(text, name);
    }
    if NormalizeName(text) in Keys(Absolute(name)) {
      KeyThenCovers(text, name);
    }
  }

  /** The keys tried for a name: its own text, then one per proper non-empty suffix. */
  lemma {:induction false} KeysAre(name: seq<string>)
    requires IsName(name)
    ensures var keys := Keys(Absolute(name));
            && keys[0] == Absolute(name)
            && |keys| == (if name == [] then 1 else |name|)
            && forall i :: 1 <= i < |keys| ==> keys[i] == StarKey(name[i..])
  {
    LabelsOfAbsolute(name);
    if name != [] {
      StarKeysAre(name, 1);
    }
  }

  lemma {:induction false} StarKeysAre(labels: seq<string>, from: nat)
    requires from <= |labels|
    ensures |StarKeys(labels, from)| == |labels| - from
    ensures forall i :: from <= i < |labels| ==> StarKeys(labels, from)[i - from] == StarKey(labels[i..])
    decreases |labels| - from
  {
    if from == |labels| {
    } else {
      StarKeysAre(labels, from + 1);
      var rest := StarKeys(labels, from + 1);
      assert StarKeys(labels, from) == [StarKey(labels[from..])] + rest;
      forall i | from < i < |labels|
        ensures StarKeys(labels, from)[i - from] == StarKey(labels[i..])
      {
        assert StarKeys(labels, from)[i - from] == rest[i - from - 1];
      }
    }
  }

  // ---------- tables built from rules ----------

  /** A rule text with the value stored for it. */
  datatype Entry = Entry(domain: string, value: string)

  /** The store after the entries have been written in order. */
  function Table(entries: seq<Entry>): map<string, string> {
    if entries == [] then map[]
    else
      var n := |entries| - 1;
      Table(entries[..n])[NormalizeName(entries[n].domain) := entries[n].value]
  }

  function RulesOf(entries: seq<Entry>): seq<Rule> {
    seq(|entries|, i requires 0 <= i < |entries| => RuleOf(entries[i].domain))
  }

  /** Reference evaluation by scanning the rules: the covering rule that fixes most labels,
      the last one among equals. */
  function Best(rules: seq<Rule>, name: seq<string>): (r: Option<nat>)
    ensures r.Some? ==> r.value < |rules|
  {
    if rules == [] then None
    else
      var n := |rules| - 1;
      var best := Best(rules[..n], name);
      if !Covers(rules[n], name) then best
      else if best.Some? && Rank(rules[n]) < Rank(rules[best.value]) then best
      else Some(n)
  }

  /** The rule that decides: it covers the name, no covering rule fixes more labels, and no
      later covering rule fixes as many. */
  ghost predicate IsWinner(rules: seq<Rule>, name: seq<string>, i: nat) {
    && i < |rules|
    && Covers(rules[i], name)
    && forall j: nat :: j < |rules| && Covers(rules[j], name) ==>
         && Rank(rules[j]) <= Rank(rules[i])
         && (Rank(rules[j]) == Rank(rules[i]) ==> j <= i)
  }

  ghost predicate NoneCovers(rules: seq<Rule>, name: seq<string>) {
    forall i :: 0 <= i < |rules| ==> !Covers(rules[i], name)
  }

  lemma {:induction false} BestFound(rules: seq<Rule>, name: seq<string>)
    ensures match Best(rules, name) case Some(i) => IsWinner(rules, name, i) case None => NoneCovers(rules, name)
  {
    if rules == [] {
    } else {
      BestFound(rules[..|rules| - 1], name);
    }
  }

  /** The scan finds the winner exactly when there is one. */
  lemma {:induction false} BestIsWinner(rules: seq<Rule>, name: seq<string>)
    ensures forall i: nat :: Best(rules, name) == Some(i) <==> IsWinner(rules, name, i)
    ensures Best(rules, name) == None <==> NoneCovers(rules, name)
  {
    BestFound(rules, name);
  }

  function LabelsOfRule(rule: Rule): seq<string> {
    match rule
    case Exact(labels) => labels
    case Wildcard(suffix) => ["*"] + suffix
  }

  /** The key of a rule text is determined by the rule it denotes. */
  lemma {:induction false} KeyOfRule(text: string)
    ensures NormalizeName(text) == Absolute(LabelsOfRule(RuleOf(text)))
  {
    var body := if EndsWithDot(text) then text[..|text| - 1] else text;
    assert NormalizeName(text) == body + ".";
    if body != "" {
      JoinSplit(body, '.');
    }
    var labels := RuleLabels(text);
    assert |labels| > 0 ==> labels == [labels[0]] + labels[1..];
  }

  /** Two rule texts with one key are one rule. */
  lemma {:induction false} SameKeySameRule(text: string, other: string)
    requires NormalizeName(text) == NormalizeName(other)
    ensures RuleOf(text) == RuleOf(other)
  {
    var key := NormalizeName(text);
    assert (if EndsWithDot(text) then text[..|text| - 1] else text) == key[..|key| - 1];
    assert (if EndsWithDot(other) then other[..|other| - 1] else other) == key[..|key| - 1];
  }

  /** Rules that cover one name and fix as many labels have one key, and it stands in the
      list of keys of the name as many places from the end as labels it fixes. */
  lemma {:induction false} CoveringKey(text: string, name: seq<string>)
    requires IsName(name) && Covers(RuleOf(text), name)
    ensures Rank(RuleOf(text)) <= |name|
    ensures var keys := Keys(Absolute(name));
            var at := |name| - Rank(RuleOf(text));
            at < |keys| && keys[at] == NormalizeName(text)
  {
    KeysAre(name);
    KeyOfRule(text);
    match RuleOf(text)
    case Exact(_) =>
    case Wildcard(suffix) =>
      assert |suffix| == |RuleLabels(text)| - 1;
      StarKeyOfSuffix(name, suffix);
  }

  lemma {:induction false} StarKeyOfSuffix(name: seq<string>, suffix: seq<string>)
    requires IsName(name) && 0 < |suffix| < |name| && name[|name| - |suffix|..] == suffix
    ensures StarKey(name[|name| - |suffix|..]) == Absolute(["*"] + suffix)
  {
    StarKeyIsName(suffix);
  }

  /** Entry `i` is the last one written under this key. */
  ghost predicate IsLast(entries: seq<Entry>, key: string, i: nat) {
    && i < |entries|
    && NormalizeName(entries[i].domain) == key
    && forall j: nat :: i < j < |entries| ==> NormalizeName(entries[j].domain) != key
  }

  lemma {:induction false} TableLast(entries: seq<Entry>, key: string, i: nat)
    requires IsLast(entries, key, i)
    ensures key in Table(entries) && Table(entries)[key] == entries[i].value
  {
    var n := |entries| - 1;
    if i == n {
    } else {
      TableLast(entries[..n], key, i);
    }
  }

  lemma {:induction false} TableSource(entries: seq<Entry>, key: string) returns (i: nat)
    requires key in Table(entries)
    ensures IsLast(entries, key, i) && Table(entries)[key] == entries[i].value
  {
    var n := |entries| - 1;
    if NormalizeName(entries[n].domain) == key {
      i := n;
    } else {
      i := TableSource(entries[..n], key);
    }
  }

  lemma {:induction false} FirstHitIs(m: map<string, string>, keys: seq<string>, j: nat)
    requires j < |keys| && keys[j] in m
    requires forall l :: 0 <= l < j && keys[l] in m ==> keys[l] == keys[j]
    ensures FirstHit(m, map[], keys) == Ok(Some(m[keys[j]]))
  {
    if keys[0] in m {
    } else {
      FirstHitIs(m, keys[1..], j - 1);
    }
  }

  lemma {:induction false} FirstHitNone(m: map<string, string>, keys: seq<string>)
    requires forall l :: 0 <= l < |keys| ==> keys[l] !in m
    ensures FirstHit(m, map[], keys) == Ok(None)
  {
    if keys == [] {
    } else {
      FirstHitNone(m, keys[1..]);
    }
  }

  lemma {:induction false} SameLength(a: seq<string>, b: seq<string>)
    requires IsName(a) && IsName(b) && Absolute(a) == Absolute(b)
    ensures a == b
  {
    LabelsOfAbsolute(a);
    LabelsOfAbsolute(b);
  }

  /** Star keys of different suffixes are different. */
  lemma {:induction false} StarKeysDiffer(name: seq<string>, i: nat, j: nat)
    requires IsName(name) && 1 <= i < |name| && 1 <= j < |name|
    requires StarKey(name[i..]) == StarKey(name[j..])
    ensures i == j
  {
    StarKeyIsName(name[i..]);
    StarKeyIsName(name[j..]);
    SameLength(["*"] + name[i..], ["*"] + name[j..]);
    assert |["*"] + name[i..]| == |["*"] + name[j..]|;
  }

  /** The text of a name can only be a star key of its own first suffix. */
  lemma {:induction false} RootKeyTwice(name: seq<string>, j: nat)
    requires IsName(name) && 1 <= j < |name| && Absolute(name) == StarKey(name[j..])
    ensures j == 1
  {
    StarKeyIsName(name[j..]);
    SameLength(name, ["*"] + name[j..]);
    assert |name| == |["*"] + name[j..]|;
  }

  /** A name may have one text as its own key and as its first star key; no other keys of
      it coincide. */
  lemma {:induction false} KeysRepeat(name: seq<string>, l: nat, at: nat, between: nat)
    requires IsName(name) && l < between <= at < |Keys(Absolute(name))|
    requires Keys(Absolute(name))[l] == Keys(Absolute(name))[at]
    ensures Keys(Absolute(name))[between] == Keys(Absolute(name))[l]
  {
    KeysAre(name);
    if l > 0 {
      StarKeysDiffer(name, l, at);
    } else {
      RootKeyTwice(name, at);
    }
  }

  /** A key of the name that is in the table comes from an entry that covers the name. */
  lemma {:induction false} HitIsCovered(entries: seq<Entry>, name: seq<string>, l: nat) returns (i: nat)
    requires IsName(name) && l < |Keys(Absolute(name))| && Keys(Absolute(name))[l] in Table(entries)
    ensures i < |entries| && Covers(RulesOf(entries)[i], name)
    ensures Rank(RulesOf(entries)[i]) <= |name|
    ensures var at := |name| - Rank(RulesOf(entries)[i]); var keys := Keys(Absolute(name));
            at < |keys| && keys[at] == keys[l]
  {
    i := TableSource(entries, Keys(Absolute(name))[l]);
    CoversIffKey(entries[i].domain, name);
    CoveringKey(entries[i].domain, name);
  }

  lemma {:induction false} WinnerValue(entries: seq<Entry>, name: seq<string>, w: nat)
    requires IsWinner(RulesOf(entries), name, w)
    ensures var key := NormalizeName(entries[w].domain); key in Table(entries) && Table(entries)[key] == entries[w].value
  {
    var key := NormalizeName(entries[w].domain);
    forall j: nat | w < j < |entries|
      ensures NormalizeName(entries[j].domain) != key
    {
      assert RulesOf(entries)[j] == RuleOf(entries[j].domain);
      if NormalizeName(entries[j].domain) == key {
        SameKeySameRule(entries[j].domain, entries[w].domain);
      }
    }
    TableLast(entries, key, w);
  }

  /** The winner's key is the first key of the name that is in the table. */
  lemma {:induction false} NothingBeforeWinner(entries: seq<Entry>, name: seq<string>, w: nat, at: nat, l: nat)
    requires IsName(name) && IsWinner(RulesOf(entries), name, w)
    requires at == |name| - Rank(RulesOf(entries)[w]) && l < at < |Keys(Absolute(name))|
    requires Keys(Absolute(name))[l] in Table(entries)
    ensures Keys(Absolute(name))[l] == Keys(Absolute(name))[at]
  {
    var i := HitIsCovered(entries, name, l);
    var iat := |name| - Rank(RulesOf(entries)[i]);
    KeysRepeat(name, l, iat, at);
  }

  lemma {:induction false} WinnerKey(entries: seq<Entry>, name: seq<string>, w: nat) returns (at: nat)
    requires IsName(name) && IsWinner(RulesOf(entries), name, w)
    ensures at == |name| - Rank(RulesOf(entries)[w]) && at < |Keys(Absolute(name))|
    ensures Keys(Absolute(name))[at] == NormalizeName(entries[w].domain)
  {
    CoveringKey(entries[w].domain, name);
    at := |name| - Rank(RulesOf(entries)[w]);
  }

  lemma {:induction false} LookupAt(m: map<string, string>, query: string, at: nat, value: string)
    requires at < |Keys(query)| && Keys(query)[at] in m && m[Keys(query)[at]] == value
    requires forall l :: 0 <= l < at && Keys(query)[l] in m ==> Keys(query)[l] == Keys(query)[at]
    ensures Lookup(m, query) == Some(value)
  {
    FirstHitIs(m, Keys(query), at);
  }

  lemma {:induction false} LookupWinner(entries: seq<Entry>, name: seq<string>, w: nat)
    requires IsName(name) && IsWinner(RulesOf(entries), name, w)
    ensures Lookup(Table(entries), Absolute(name)) == Some(entries[w].value)
  {
    var at := WinnerKey(entries, name, w);
    WinnerValue(entries, name, w);
    forall l | 0 <= l < at && Keys(Absolute(name))[l] in Table(entries)
      ensures Keys(Absolute(name))[l] == Keys(Absolute(name))[at]
    {
      NothingBeforeWinner(entries, name, w, at, l);
    }
    LookupAt(Table(entries), Absolute(name), at, entries[w].value);
  }

  lemma {:induction false} LookupNone(entries: seq<Entry>, name: seq<string>)
    requires IsName(name) && NoneCovers(RulesOf(entries), name)
    ensures Lookup(Table(entries), Absolute(name)) == None
  {
    var m, keys := Table(entries), Keys(Absolute(name));
    forall l | 0 <= l < |keys|
      ensures keys[l] !in m
    {
      if keys[l] in m {
        var i := HitIsCovered(entries, name, l);
      }
    }
    FirstHitNone(m, keys);
  }

  /** The index answers what the scan answers: the value of the exact rule if there is one,
      else of the wildcard with the longest proper non-empty suffix, else nothing. */
  lemma {:induction false} LookupIsBest(entries: seq<Entry>, name: seq<string>)
    requires IsName(name)
    ensures Lookup(Table(entries), Absolute(name))
         == match Best(RulesOf(entries), name) case Some(i) => Some(entries[i].value) case None => None
  {
    BestFound(RulesOf(entries), name);
    match Best(RulesOf(entries), name)
    case Some(w) => LookupWinner(entries, name, w);
    case None => LookupNone(entries, name);
  }

  /** The text of a wildcard in the index is found by exactly the names with labels in front
      of its suffix; by its own suffix it is never found. */
  lemma {:induction false} ApexIsNotCovered(text: string, suffix: seq<string>, value: string, name: seq<string>)
    requires IsName(suffix) && suffix != [] && NormalizeName(text) == StarKey(suffix) && IsName(name)
    ensures Lookup(Table([Entry(text, value)]), Absolute(name)) == Some(value)
       <==> exists front: seq<string> :: front != [] && name == front + suffix
    ensures Lookup(Table([Entry(text, value)]), Absolute(name)) in {Some(value), None}
    ensures Lookup(Table([Entry(text, value)]), Absolute(suffix)) == None
  {
    StarKeyIsRule(text, suffix);
    OneEntry(Entry(text, value), name);
    OneEntry(Entry(text, value), suffix);
    WildcardHasFront(suffix, name);
  }

  lemma {:induction false} OneEntry(entry: Entry, name: seq<string>)
    requires IsName(name)
    ensures Lookup(Table([entry]), Absolute(name)) == if Covers(RuleOf(entry.domain), name) then Some(entry.value) else None
  {
    var rules := RulesOf([entry]);
    assert rules == [RuleOf(entry.domain)];
    LookupIsBest([entry], name);
    BestIsWinner(rules, name);
    if Covers(rules[0], name) {
      assert IsWinner(rules, name, 0);
    }
  }

  lemma {:induction false} WildcardHasFront(suffix: seq<string>, name: seq<string>)
    ensures Covers(Wildcard(suffix), name) <==> exists front: seq<string> :: front != [] && name == front + suffix
  {
    if Covers(Wildcard(suffix), name) {
      assert name == name[..|name| - |suffix|] + suffix;
    }
    forall front: seq<string> | front != [] && name == front + suffix
      ensures Covers(Wildcard(suffix), name)
    {
      assert (front + suffix)[|front + suffix| - |suffix|..] == suffix;
    }
  }

  /** `get` does not normalise the name it is asked for, although `put` does: without its
      trailing dot a name still finds wildcards, but never its own exact rule. */
  lemma {:induction false} UndottedNameMissesExact(entries: seq<Entry>, name: seq<string>)
    requires IsName(name) && name != []
    ensures Lookup(Table(entries), Join(name, '.'))
         == match FirstHit(Table(entries), map[], Keys(Absolute(name))[1..]) case Ok(hit) => hit case Err(_) => None
  {
    var text := Join(name, '.');
    SplitJoin(name, '.');
    NonEmptyAll(name);
    assert LabelsOf(text) == name;
    LabelsOfAbsolute(name);
    assert Keys(text)[1..] == Keys(Absolute(name))[1..];
    assert text !in Table(entries) by {
      if text in Table(entries) {
        var i := TableSource(entries, text);
        JoinEndsInLabel(name);
      }
    }
  }

  lemma {:induction false} JoinEndsInLabel(name: seq<string>)
    requires IsName(name) && name != []
    ensures !EndsWithDot(Join(name, '.')) && Join(name, '.') != ""
  {
    if |name| > 1 {
      JoinEndsInLabel(name[1..]);
      var rest := Join(name[1..], '.');
      assert Join(name, '.')[|Join(name, '.')| - 1] == rest[|rest| - 1];
    } else {
      assert name[0][|name[0]| - 1] in name[0];
    }
  }
}

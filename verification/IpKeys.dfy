/** The admin pages look up the log under the key the request handler logged it under. */
module IpKeys {
  import opened Text
  import opened RateLimiter
  import opened Handler
  import opened IpText

  /** `normalize_ip` of the admin pages: the printed address without the mapping prefix. */
  function Stripped(text: string): string {
    if StartsWith(text, "::ffff:") then text[7..] else text
  }

  /** The stripped text is parsed again; if that fails, the address itself is the key. */
  ghost function AdminKey(ip: IpAddr): IpAddr {
    match ParseIp(Stripped(Print(ip)))
    case Some(key) => key
    case None => ip
  }

  // ---------- splitting ----------

  lemma {:induction false} SplitConcat(a: string, b: string, sep: char)
    ensures Split(a + [sep] + b, sep) == Split(a, sep) + Split(b, sep)
  {
    var s := a + [sep] + b;
    if a == "" {
      assert s[1..] == b && s[0] == sep;
    } else {
      assert s[1..] == a[1..] + [sep] + b && s[0] == a[0];
      SplitConcat(a[1..], b, sep);
      FirstPart(Split(a[1..], sep), Split(b, sep), a[0]);
    }
  }

  lemma {:induction false} FirstPart(parts: seq<string>, others: seq<string>, c: char)
    requires |parts| > 0
    ensures [""] + (parts + others) == [""] + parts + others
    ensures [[c] + (parts + others)[0]] + (parts + others)[1..] == [[c] + parts[0]] + parts[1..] + others
  {
  }

  /** The parts of joined groups; no groups make one empty part. */
  function PartsOf(groups: seq<string>): seq<string> {
    if groups == [] then [""] else groups
  }

  ghost predicate Plain(groups: seq<string>) {
    forall i :: 0 <= i < |groups| ==> groups[i] != "" && ':' !in groups[i]
  }

  lemma {:induction false} SplitGroups(groups: seq<string>)
    requires Plain(groups)
    ensures Split(Join(groups, ':'), ':') == PartsOf(groups)
  {
    if groups != [] {
      SplitJoin(groups, ':');
    }
  }

  /** A double colon shows up as an empty part. */
  lemma {:induction false} SplitShort(head: seq<string>, tail: seq<string>)
    requires Plain(head) && Plain(tail)
    ensures Split(Join(head, ':') + "::" + Join(tail, ':'), ':') == PartsOf(head) + [""] + PartsOf(tail)
  {
    var h, t := Join(head, ':'), Join(tail, ':');
    assert h + "::" + t == h + ":" + ("" + ":" + t);
    SplitConcat(h, "" + ":" + t, ':');
    SplitConcat("", t, ':');
    SplitGroups(head);
    SplitGroups(tail);
  }

  lemma {:induction false} JoinHas(parts: seq<string>, sep: char, i: nat, c: char)
    requires i < |parts| && c in parts[i]
    ensures c in Join(parts, sep)
  {
    if |parts| == 1 || i == 0 {
    } else {
      JoinHas(parts[1..], sep, i - 1, c);
    }
  }

  lemma {:induction false} JoinHasSep(parts: seq<string>, sep: char)
    requires |parts| > 1
    ensures sep in Join(parts, sep)
  {
    assert Join(parts, sep)[|parts[0]|] == sep;
  }

  lemma {:induction false} JoinLacks(parts: seq<string>, sep: char, c: char)
    requires c != sep && forall i :: 0 <= i < |parts| ==> c !in parts[i]
    ensures c !in Join(parts, sep)
  {
    if |parts| <= 1 {
    } else {
      JoinLacks(parts[1..], sep, c);
    }
  }

  // ---------- dotted quads ----------

  lemma {:induction false} V4TextChars(bits: nat)
    ensures ':' !in V4Text(bits) && '.' in V4Text(bits)
  {
    var parts := Decimals(Octets(bits));
    forall i | 0 <= i < |parts|
      ensures ':' !in parts[i]
    {
      DecimalRead(Octets(bits)[i]);
    }
    JoinLacks(parts, '.', ':');
    JoinHasSep(parts, '.');
  }

  lemma {:induction false} V4TextInjective(a: nat, b: nat)
    requires V4Text(a) == V4Text(b)
    ensures a == b
  {
    var x, y := Octets(a), Octets(b);
    forall i | 0 <= i < 4
      ensures DecimalValue(Decimals(x)[i]) == x[i] && DecimalValue(Decimals(y)[i]) == y[i]
      ensures '.' !in Decimals(x)[i] && '.' !in Decimals(y)[i]
    {
      DecimalRead(x[i]);
      DecimalRead(y[i]);
    }
    SplitJoin(Decimals(x), '.');
    SplitJoin(Decimals(y), '.');
    assert forall i :: 0 <= i < 4 ==> x[i] == y[i];
    OctetsInjective(a, b);
  }

  /** A text without colons is no IPv6 address. */
  lemma {:induction false} ColonsNeeded(text: string, bits: nat)
    requires Denotes(text, V6(bits))
    ensures ':' in text
  {
    if parts, values :| DenotesFull(text, bits, parts, values) {
      assert |parts| > 1;
      JoinHasSep(parts, ':');
    } else {
      var head, tail, before, after :| DenotesShort(text, bits, head, tail, before, after);
      assert text[|Join(head, ':')|] == ':';
    }
  }

  lemma {:induction false} QuadParses(bits: nat)
    requires bits < 0x1_0000_0000
    ensures ParseIp(V4Text(bits)) == Some(V4(bits))
  {
    V4TextChars(bits);
    assert Denotes(V4Text(bits), V4(bits));
    forall ip | Denotes(V4Text(bits), ip)
      ensures ip == V4(bits)
    {
      match ip
      case V4(other) => V4TextInjective(bits, other);
      case V6(other) => ColonsNeeded(V4Text(bits), other);
    }
  }

  // ---------- texts without dots ----------

  lemma {:induction false} UndottedParts(parts: seq<string>, values: seq<nat>)
    requires PartsMean(parts, values) && '.' !in Join(parts, ':')
    ensures GroupsMean(parts, values)
  {
    if !GroupsMean(parts, values) {
      var x: nat :| x < 0x1_0000_0000 && QuadAtEnd(parts, values, x);
      V4TextChars(x);
      JoinHas(parts, ':', |parts| - 1, '.');
    }
  }

  lemma {:induction false} GroupsArePlain(parts: seq<string>, values: seq<nat>)
    requires GroupsMean(parts, values)
    ensures Plain(parts)
  {
    forall i | 0 <= i < |parts|
      ensures parts[i] != "" && ':' !in parts[i]
    {
      assert HexGroup(parts[i]) && !IsHexChar(':');
    }
  }

  lemma {:induction false} SameValues(parts: seq<string>, a: seq<nat>, b: seq<nat>)
    requires GroupsMean(parts, a) && GroupsMean(parts, b)
    ensures a == b
  {
  }

  /** Where the empty parts are tells where the double colon was. */
  lemma {:induction false} ShortIsUnique(h: seq<string>, t: seq<string>, head: seq<string>, tail: seq<string>)
    requires Plain(h) && Plain(t) && Plain(head) && Plain(tail)
    requires PartsOf(h) + [""] + PartsOf(t) == PartsOf(head) + [""] + PartsOf(tail)
    ensures h == head && t == tail
  {
    var x, y := PartsOf(h) + [""] + PartsOf(t), PartsOf(head) + [""] + PartsOf(tail);
    assert forall i :: 0 <= i < |h| ==> x[i] == h[i];
    assert forall i :: 0 <= i < |head| ==> y[i] == head[i];
    assert x[|h|] == "" && y[|head|] == "";
    assert |h| == |head|;
    assert h == x[..|h|] && head == y[..|head|];
    assert PartsOf(t) == x[|PartsOf(h)| + 1..] && PartsOf(tail) == y[|PartsOf(head)| + 1..];
  }

  /** The groups of a text: all eight, or some on each side of a double colon. */
  datatype Form = Full(values: seq<nat>) | Short(before: seq<nat>, after: seq<nat>)

  function FormBits(form: Form): nat {
    match form
    case Full(values) => Value(values)
    case Short(before, after) => Value(Filled(before, after))
  }

  /** `text` has this form, with these parts. */
  ghost predicate HasForm(text: string, form: Form, head: seq<string>, tail: seq<string>) {
    match form
    case Full(values) => GroupsMean(head, values) && |values| == 8 && tail == [] && text == Join(head, ':')
    case Short(before, after) =>
      && GroupsMean(head, before) && GroupsMean(tail, after) && |before| + |after| <= 7
      && text == Join(head, ':') + "::" + Join(tail, ':')
  }

  lemma {:induction false} FormSplit(text: string, form: Form, head: seq<string>, tail: seq<string>)
    requires HasForm(text, form, head, tail)
    ensures Plain(head) && Plain(tail)
    ensures Split(text, ':') == if form.Full? then head else PartsOf(head) + [""] + PartsOf(tail)
  {
    match form
    case Full(values) =>
      GroupsArePlain(head, values);
      SplitGroups(head);
    case Short(before, after) =>
      GroupsArePlain(head, before);
      GroupsArePlain(tail, after);
      SplitShort(head, tail);
  }

  /** A text has at most one form. */
  lemma {:induction false} FormIsUnique(text: string, f: Form, h: seq<string>, t: seq<string>, g: Form, head: seq<string>, tail: seq<string>)
    requires HasForm(text, f, h, t) && HasForm(text, g, head, tail)
    ensures f == g
  {
    FormSplit(text, f, h, t);
    FormSplit(text, g, head, tail);
    match (f, g)
    case (Full(a), Full(b)) => SameValues(h, a, b);
    case (Short(a, b), Short(c, d)) =>
      ShortIsUnique(h, t, head, tail);
      SameValues(h, a, c);
      SameValues(t, b, d);
    case (Full(a), Short(c, d)) => EmptyPart(h, head, tail);
    case (Short(a, b), Full(d)) => EmptyPart(head, h, t);
  }

  /** Groups have no empty part. */
  lemma {:induction false} EmptyPart(groups: seq<string>, head: seq<string>, tail: seq<string>)
    requires Plain(groups)
    ensures groups != PartsOf(head) + [""] + PartsOf(tail)
  {
    assert (PartsOf(head) + [""] + PartsOf(tail))[|PartsOf(head)|] == "";
  }

  lemma {:induction false} FullForm(text: string, bits: nat, parts: seq<string>, values: seq<nat>)
    requires '.' !in text && DenotesFull(text, bits, parts, values)
    ensures HasForm(text, Full(values), parts, []) && bits == FormBits(Full(values))
  {
    UndottedParts(parts, values);
  }

  lemma {:induction false} ShortForm(text: string, bits: nat, head: seq<string>, tail: seq<string>, before: seq<nat>, after: seq<nat>)
    requires '.' !in text && DenotesShort(text, bits, head, tail, before, after)
    ensures HasForm(text, Short(before, after), head, tail) && bits == FormBits(Short(before, after))
  {
    var h, t := Join(head, ':'), Join(tail, ':');
    assert forall i :: 0 <= i < |t| ==> t[i] == text[|h| + 2 + i];
    UndottedParts(tail, after);
  }

  /** What a text without dots denotes, it denotes through its form. */
  lemma {:induction false} DenotesByForm(text: string, ip: IpAddr) returns (form: Form, head: seq<string>, tail: seq<string>)
    requires '.' !in text && Denotes(text, ip)
    ensures ip.V6? && HasForm(text, form, head, tail) && ip.bits == FormBits(form)
  {
    V4TextChars(ip.bits);
    assert ip.V6?;
    form, head, tail := V6Form(text, ip.bits);
  }

  lemma {:induction false} FormDenotes(text: string, form: Form, head: seq<string>, tail: seq<string>)
    requires HasForm(text, form, head, tail)
    ensures Denotes(text, V6(FormBits(form)))
  {
    match form
    case Full(values) => assert DenotesFull(text, FormBits(form), head, values);
    case Short(before, after) => assert DenotesShort(text, FormBits(form), head, tail, before, after);
  }

  lemma {:induction false} V6Form(text: string, bits: nat) returns (form: Form, head: seq<string>, tail: seq<string>)
    requires '.' !in text && Denotes(text, V6(bits))
    ensures HasForm(text, form, head, tail) && bits == FormBits(form)
  {
    if parts, values :| DenotesFull(text, bits, parts, values) {
      FullForm(text, bits, parts, values);
      form, head, tail := Full(values), parts, [];
    } else {
      var h, t, before, after :| DenotesShort(text, bits, h, t, before, after);
      ShortForm(text, bits, h, t, before, after);
      form, head, tail := Short(before, after), h, t;
    }
  }

  // ---------- printed IPv6 addresses ----------

  lemma {:induction false} HexesMean(values: seq<nat>)
    requires forall i :: 0 <= i < |values| ==> values[i] < 0x1_0000
    ensures GroupsMean(Hexes(values), values)
    ensures '.' !in HexText(values)
  {
    forall i | 0 <= i < |values|
      ensures HexGroup(Hexes(values)[i]) && HexValue(Hexes(values)[i]) == values[i] && '.' !in Hexes(values)[i]
    {
      HexIsGroup(values[i]);
    }
    JoinLacks(Hexes(values), ':', '.');
  }

  /** The form in which eight groups are printed. */
  function PrintedForm(groups: seq<nat>): Form {
    var (start, length) := LongestRun(groups, |groups|);
    if length > 1 then Short(groups[..start], groups[start + length..]) else Full(groups)
  }

  lemma {:induction false} PrintedHasForm(groups: seq<nat>) returns (head: seq<string>, tail: seq<string>)
    requires |groups| == 8 && forall i :: 0 <= i < 8 ==> groups[i] < 0x1_0000
    ensures HasForm(GroupsText(groups), PrintedForm(groups), head, tail) && '.' !in GroupsText(groups)
    ensures FormBits(PrintedForm(groups)) == Value(groups)
    ensures PrintedForm(groups).Short? ==> |tail| <= 6
  {
    var (start, length) := LongestRun(groups, |groups|);
    if length > 1 {
      HexesMean(groups[..start]);
      HexesMean(groups[start + length..]);
      head, tail := Hexes(groups[..start]), Hexes(groups[start + length..]);
      assert groups == Filled(groups[..start], groups[start + length..]);
    } else {
      HexesMean(groups);
      head, tail := Hexes(groups), [];
    }
  }

  /** A double colon is printed exactly when two neighbouring groups are zero. */
  lemma {:induction false} DoubleColonIff(groups: seq<nat>)
    requires |groups| == 8 && forall i :: 0 <= i < 8 ==> groups[i] < 0x1_0000
    ensures "" in Split(GroupsText(groups), ':') <==> exists i :: 0 <= i < 7 && groups[i] == 0 && groups[i + 1] == 0
  {
    var head, tail := PrintedHasForm(groups);
    var form := PrintedForm(groups);
    FormSplit(GroupsText(groups), form, head, tail);
    if form.Short? {
      assert (PartsOf(head) + [""] + PartsOf(tail))[|PartsOf(head)|] == "";
    }
    ShortIff(groups);
  }

  lemma {:induction false} ShortIff(groups: seq<nat>)
    requires |groups| == 8
    ensures PrintedForm(groups).Short? <==> exists i :: 0 <= i < 7 && groups[i] == 0 && groups[i + 1] == 0
  {
    var (start, length) := LongestRun(groups, 8);
    if length > 1 {
      assert groups[start] == 0 && groups[start + 1] == 0;
    }
    if i :| 0 <= i < 7 && groups[i] == 0 && groups[i + 1] == 0 {
      LongestRunIs(groups, 8, i);
      assert ZeroRun(groups, i) == 1 + ZeroRun(groups, i + 1);
    }
  }

  /** A printed address that is not stripped parses to itself. */
  lemma {:induction false} PrintedParses(groups: seq<nat>)
    requires |groups| == 8 && forall i :: 0 <= i < 8 ==> groups[i] < 0x1_0000
    ensures ParseIp(GroupsText(groups)) == Some(V6(Value(groups)))
  {
    var head, tail := PrintedHasForm(groups);
    FormDenotes(GroupsText(groups), PrintedForm(groups), head, tail);
    forall ip | Denotes(GroupsText(groups), ip)
      ensures ip == V6(Value(groups))
    {
      var form, h, t := DenotesByForm(GroupsText(groups), ip);
      FormIsUnique(GroupsText(groups), form, h, t, PrintedForm(groups), head, tail);
    }
  }

  /** What is left of a printed address after the prefix `::ffff:` is at most five groups:
      it denotes nothing. */
  lemma {:induction false} StrippedDenotesNothing(groups: seq<nat>)
    requires |groups| == 8 && forall i :: 0 <= i < 8 ==> groups[i] < 0x1_0000
    requires StartsWith(GroupsText(groups), "::ffff:")
    ensures ParseIp(GroupsText(groups)[7..]) == None
  {
    var text := GroupsText(groups);
    var rest := text[7..];
    var head, tail := PrintedHasForm(groups);
    assert text == "::ffff:" + rest;
    FormSplit(text, PrintedForm(groups), head, tail);
    SplitPrefix(rest);
    FewParts(text, rest, PrintedForm(groups), head, tail);
    forall ip
      ensures !Denotes(rest, ip)
    {
      if Denotes(rest, ip) {
        var form, h, t := DenotesByForm(rest, ip);
        FormSplit(rest, form, h, t);
        if form.Short? {
          EmptyPart(Split(rest, ':'), h, t);
        }
      }
    }
  }

  lemma {:induction false} SplitPrefix(rest: string)
    ensures Split("::ffff:" + rest, ':') == ["", "", "ffff"] + Split(rest, ':')
  {
    assert "::ffff:" + rest == "" + ":" + ("" + ":" + ("ffff" + ":" + rest));
    SplitCons("ffff", rest, ':');
    SplitCons("", "ffff" + ":" + rest, ':');
    SplitCons("", "" + ":" + ("ffff" + ":" + rest), ':');
  }

  lemma {:induction false} FewParts(text: string, rest: string, form: Form, head: seq<string>, tail: seq<string>)
    requires Plain(head) && Plain(tail) && |tail| <= 6
    requires Split(text, ':') == ["", "", "ffff"] + Split(rest, ':')
    requires Split(text, ':') == if form.Full? then head else PartsOf(head) + [""] + PartsOf(tail)
    ensures Plain(Split(rest, ':')) && |Split(rest, ':')| <= 5
  {
    var parts := Split(text, ':');
    assert parts[0] == "";
    assert form.Short?;
    assert head == [];
    assert PartsOf(tail) == parts[2..];
    assert Split(rest, ':') == parts[3..];
    assert tail != [];
    assert forall i :: 0 <= i < |Split(rest, ':')| ==> Split(rest, ':')[i] == tail[i + 1];
  }

  // ---------- the keys agree ----------

  lemma {:induction false} Widths()
    ensures Pow2(16) == 0x1_0000 && Pow2(32) == 0x1_0000_0000
  {
    assert Pow2(4) == 16;
    Pow2Add(4, 4);
    Pow2Add(8, 8);
    Pow2Add(16, 16);
  }

  lemma {:induction false} PowerIsPow2(n: nat)
    ensures Power(n) == Pow2(16 * n)
  {
    Widths();
    if n == 0 {
    } else {
      PowerIsPow2(n - 1);
      Pow2Add(16, 16 * (n - 1));
    }
  }

  lemma {:induction false} NothingToStrip(text: string)
    requires ':' !in text
    ensures Stripped(text) == text
  {
    assert |text| >= 7 ==> text[..7][0] == text[0];
  }

  /** For every address the admin key is the handler's key, so that every query logged for a
      visitor is found; this covers addresses that are not mapped although their text starts
      like one that is. */
  lemma {:induction false} KeysAgree(ip: IpAddr)
    requires IsAddress(ip)
    ensures AdminKey(ip) == NormalizeIp(ip)
  {
    Widths();
    match ip
    case V4(bits) =>
      V4TextChars(bits);
      NothingToStrip(V4Text(bits));
      QuadParses(bits);
    case V6(bits) =>
      if IsMapped(bits) {
        var low := bits % 0x1_0000_0000;
        assert ("::ffff:" + V4Text(low))[7..] == V4Text(low);
        QuadParses(low);
      } else {
        var groups := Segments(bits, 8);
        PowerIsPow2(8);
        SegmentsValue(bits, 8);
        if StartsWith(GroupsText(groups), "::ffff:") {
          StrippedDenotesNothing(groups);
        } else {
          PrintedParses(groups);
        }
      }
  }

  /** The handler's key in terms of octets: an IPv6 address whose groups are five zeros, `ffff`
      and two more is the IPv4 address of these two; any other address is its own key. */
  lemma {:induction false} NormalizeByGroups(bits: nat)
    requires IsAddress(V6(bits))
    ensures var g := Segments(bits, 8);
            NormalizeIp(V6(bits)) == if g[..6] == [0, 0, 0, 0, 0, 0xFFFF] then V4(g[6] * 0x1_0000 + g[7]) else V6(bits)
  {
    var high := bits / 0x1_0000 / 0x1_0000;
    assert bits / 0x1_0000_0000 == high;
    assert bits % 0x1_0000_0000 == bits / 0x1_0000 % 0x1_0000 * 0x1_0000 + bits % 0x1_0000;
    assert Segments(bits, 8) == Segments(high, 6) + [bits / 0x1_0000 % 0x1_0000, bits % 0x1_0000];
    assert Segments(bits, 8)[..6] == Segments(high, 6);
    Widths();
    PowerIsPow2(8);
    SegmentsValue(bits, 8);
    HighGroups(high);
  }

  lemma {:induction false} ZeroGroups(x: nat, n: nat)
    requires x < Power(n)
    ensures x == 0 <==> forall i :: 0 <= i < n ==> Segments(x, n)[i] == 0
  {
    if n == 0 {
    } else {
      ZeroGroups(x / 0x1_0000, n - 1);
      assert Segments(x, n)[n - 1] == x % 0x1_0000;
      assert forall i :: 0 <= i < n - 1 ==> Segments(x, n)[i] == Segments(x / 0x1_0000, n - 1)[i];
    }
  }

  lemma {:induction false} HighGroups(high: nat)
    requires high < Power(6)
    ensures high == 0xFFFF <==> Segments(high, 6) == [0, 0, 0, 0, 0, 0xFFFF]
  {
    var upper, g := high / 0x1_0000, Segments(high / 0x1_0000, 5);
    ZeroGroups(upper, 5);
    assert Segments(high, 6) == g + [high % 0x1_0000];
    assert (forall i :: 0 <= i < 5 ==> g[i] == 0) <==> g == [0, 0, 0, 0, 0];
    assert (g + [high % 0x1_0000])[..5] == g && [0, 0, 0, 0, 0, 0xFFFF][..5] == [0, 0, 0, 0, 0];
    assert (g + [high % 0x1_0000])[5] == high % 0x1_0000 && [0, 0, 0, 0, 0, 0xFFFF][5] == 0xFFFF;
  }

  lemma {:induction false} JoinFour(a: string, b: string, c: string, d: string)
    ensures Join([a, b, c, d], '.') == a + "." + b + "." + c + "." + d
  {
    assert [a, b, c, d][1..] == [b, c, d] && [b, c, d][1..] == [c, d] && [c, d][1..] == [d];
    assert Join([c, d], '.') == c + "." + d;
    assert Join([b, c, d], '.') == b + "." + (c + "." + d);
  }

  lemma {:induction false} OctetsOf(a: nat, b: nat, c: nat, d: nat)
    requires a < 256 && b < 256 && c < 256 && d < 256
    ensures Octets(((a * 256 + b) * 256 + c) * 256 + d) == [a, b, c, d]
  {
    var x := (a * 256 + b) * 256 + c;
    assert (x * 256 + d) / 256 == x && (x * 256 + d) % 256 == d;
    assert x / 256 == a * 256 + b && x % 256 == c;
    assert (a * 256 + b) / 256 == a && (a * 256 + b) % 256 == b;
  }

  lemma {:induction false} DecimalsOf(a: nat, b: nat, c: nat, d: nat)
    ensures Decimals([a, b, c, d]) == [Decimal(a), Decimal(b), Decimal(c), Decimal(d)]
  {
  }

  /** A dotted quad is the four octets in decimal, the most significant first. */
  lemma {:induction false} QuadByOctets(a: nat, b: nat, c: nat, d: nat)
    requires a < 256 && b < 256 && c < 256 && d < 256
    ensures V4Text(((a * 256 + b) * 256 + c) * 256 + d) == Decimal(a) + "." + Decimal(b) + "." + Decimal(c) + "." + Decimal(d)
  {
    OctetsOf(a, b, c, d);
    DecimalsOf(a, b, c, d);
    JoinFour(Decimal(a), Decimal(b), Decimal(c), Decimal(d));
  }
}

/** Strings as the program sees them: sequences of Unicode scalar values. */
module Text {

  datatype Option<+T> = None | Some(value: T)

  datatype Result<+T, +E> = Ok(value: T) | Err(error: E)

  /** Unicode White_Space: the characters matched by `\s` and removed by `trim`. */
  predicate IsSpace(c: char) {
    var u := c as int;
    || 9 <= u <= 13
    || u == 0x20
    || u == 0x85
    || u == 0xA0
    || u == 0x1680
    || 0x2000 <= u <= 0x200A
    || u == 0x2028
    || u == 0x2029
    || u == 0x202F
    || u == 0x205F
    || u == 0x3000
  }

  predicate IsLower(c: char) {
    'a' <= c <= 'z'
  }

  /** The 25 characters with the property White_Space, and the letters of `[a-z]`. */
  lemma {:induction false} SpacesAndLetters(c: char)
    ensures IsSpace(c) <==> c as int in {
      9, 10, 11, 12, 13, 32, 133, 160, 5760, 8192, 8193, 8194, 8195, 8196, 8197, 8198, 8199, 8200, 8201, 8202,
      8232, 8233, 8239, 8287, 12288}
    ensures IsLower(c) <==> c in "abcdefghijklmnopqrstuvwxyz"
  {
    var letters := "abcdefghijklmnopqrstuvwxyz";
    if IsLower(c) {
      assert letters[c as int - 'a' as int] == c;
    }
  }

  ghost predicate AllSpace(s: string) {
    forall i :: 0 <= i < |s| ==> IsSpace(s[i])
  }

  ghost predicate AllLower(s: string) {
    forall i :: 0 <= i < |s| ==> IsLower(s[i])
  }

  ghost predicate NoSpace(s: string) {
    forall i :: 0 <= i < |s| ==> !IsSpace(s[i])
  }

  predicate StartsWith(s: string, prefix: string) {
    |prefix| <= |s| && s[..|prefix|] == prefix
  }

  predicate EndsWithDot(s: string) {
    |s| > 0 && s[|s| - 1] == '.'
  }

  function TrimStart(s: string): string {
    if |s| > 0 && IsSpace(s[0]) then TrimStart(s[1..]) else s
  }

  function TrimEnd(s: string): string {
    if |s| > 0 && IsSpace(s[|s| - 1]) then TrimEnd(s[..|s| - 1]) else s
  }

  function Trim(s: string): string {
    TrimEnd(TrimStart(s))
  }

  /** Trimming leading space off `lead + body` leaves `body` when its ends are not space. */
  lemma {:induction false} TrimPrefixed(lead: string, body: string)
    requires AllSpace(lead)
    requires |body| > 0 && !IsSpace(body[0]) && !IsSpace(body[|body| - 1])
    ensures Trim(lead + body) == body
  {
    if lead == "" {
      assert lead + body == body;
    } else {
      assert (lead + body)[1..] == lead[1..] + body;
      TrimPrefixed(lead[1..], body);
    }
  }

  /** Trimming takes white space off both ends, and all of it. */
  lemma {:induction false} TrimIs(s: string) returns (front: string, back: string)
    ensures s == front + Trim(s) + back && AllSpace(front) && AllSpace(back)
    ensures Trim(s) != "" ==> !IsSpace(Trim(s)[0]) && !IsSpace(Trim(s)[|Trim(s)| - 1])
  {
    front := TrimStartIs(s);
    back := TrimEndIs(TrimStart(s));
    assert Trim(s) != "" ==> Trim(s)[0] == TrimStart(s)[0];
  }

  lemma {:induction false} TrimStartIs(s: string) returns (front: string)
    ensures s == front + TrimStart(s) && AllSpace(front)
    ensures TrimStart(s) != "" ==> !IsSpace(TrimStart(s)[0])
  {
    if |s| > 0 && IsSpace(s[0]) {
      var rest := TrimStartIs(s[1..]);
      front := [s[0]] + rest;
    } else {
      front := "";
    }
  }

  lemma {:induction false} TrimEndIs(s: string) returns (back: string)
    ensures s == TrimEnd(s) + back && AllSpace(back)
    ensures TrimEnd(s) != "" ==> !IsSpace(TrimEnd(s)[|TrimEnd(s)| - 1])
  {
    if |s| > 0 && IsSpace(s[|s| - 1]) {
      var rest := TrimEndIs(s[..|s| - 1]);
      back := rest + [s[|s| - 1]];
    } else {
      back := "";
    }
  }

  /** All non-overlapping occurrences of `pat`, left to right, replaced by `with`. */
  function ReplaceAll(s: string, pat: string, with: string): string
    requires |pat| > 0
  {
    if s == "" then ""
    else if StartsWith(s, pat) then with + ReplaceAll(s[|pat|..], pat, with)
    else [s[0]] + ReplaceAll(s[1..], pat, with)
  }

  lemma {:induction false} DropFirst(s: string, pat: string)
    requires |pat| > 0 && StartsWith(s, pat)
    ensures ReplaceAll(s, pat, "") == ReplaceAll(s[|pat|..], pat, "")
  {
  }

  lemma {:induction false} PutBack(s: string, pat: string)
    requires StartsWith(s, pat)
    ensures pat + s[|pat|..] == s
  {
  }

  /** A text in which the first character of `pat` never occurs is left alone. */
  lemma {:induction false} ReplaceNothing(s: string, pat: string, with: string)
    requires |pat| > 0 && pat[0] !in s
    ensures ReplaceAll(s, pat, with) == s
  {
    if s == "" {
    } else {
      assert s[..1] != pat[..1];
      ReplaceNothing(s[1..], pat, with);
    }
  }

  /** Split at every occurrence of `sep`; the empty text has one empty part. */
  function Split(s: string, sep: char): (parts: seq<string>)
    ensures |parts| > 0
    ensures forall i :: 0 <= i < |parts| ==> sep !in parts[i]
  {
    if s == "" then [""]
    else
      var rest := Split(s[1..], sep);
      if s[0] == sep then [""] + rest else [[s[0]] + rest[0]] + rest[1..]
  }

  function Join(parts: seq<string>, sep: char): string {
    if |parts| == 0 then ""
    else if |parts| == 1 then parts[0]
    else parts[0] + [sep] + Join(parts[1..], sep)
  }

  /** Parts that can be put back apart after joining. */
  ghost predicate Separate(parts: seq<string>, sep: char) {
    forall i :: 0 <= i < |parts| ==> sep !in parts[i]
  }

  lemma {:induction false} JoinSplit(s: string, sep: char)
    ensures Join(Split(s, sep), sep) == s
  {
    if s == "" {
    } else {
      var rest := Split(s[1..], sep);
      JoinSplit(s[1..], sep);
      assert Join(rest, sep) == s[1..];
      assert s == [s[0]] + s[1..];
      if s[0] == sep {
        assert ([""] + rest)[1..] == rest;
      } else {
        assert ([[s[0]] + rest[0]] + rest[1..])[1..] == rest[1..];
        if |rest| > 1 {
          assert [s[0]] + (rest[0] + [sep] + Join(rest[1..], sep))
              == ([s[0]] + rest[0]) + [sep] + Join(rest[1..], sep);
        }
      }
    }
  }

  lemma {:induction false} SplitWord(s: string, sep: char)
    requires sep !in s
    ensures Split(s, sep) == [s]
  {
    if s == "" {
    } else {
      SplitWord(s[1..], sep);
      assert s == [s[0]] + s[1..];
    }
  }

  /** Splitting `word + sep + s` peels off the word. */
  lemma {:induction false} SplitCons(word: string, s: string, sep: char)
    requires sep !in word
    ensures Split(word + [sep] + s, sep) == [word] + Split(s, sep)
  {
    var all := word + [sep] + s;
    if word == "" {
      assert all[1..] == s;
    } else {
      assert all[1..] == word[1..] + [sep] + s;
      SplitCons(word[1..], s, sep);
      assert word == [word[0]] + word[1..];
    }
  }

  lemma {:induction false} SplitJoin(parts: seq<string>, sep: char)
    requires |parts| > 0 && Separate(parts, sep)
    ensures Split(Join(parts, sep), sep) == parts
  {
    if |parts| == 1 {
      SplitWord(parts[0], sep);
    } else {
      SplitJoin(parts[1..], sep);
      SplitCons(parts[0], Join(parts[1..], sep), sep);
      assert parts == [parts[0]] + parts[1..];
    }
  }

  /** Drop one trailing carriage return. */
  function StripReturn(line: string): string {
    if |line| > 0 && line[|line| - 1] == '\r' then line[..|line| - 1] else line
  }

  /** The lines of a text: each ends at a line feed, which is dropped together with a
      carriage return before it; an unfinished last line is kept as it is. */
  function Lines(s: string): seq<string> {
    Stripped(Split(s, '\n'))
  }

  function Stripped(parts: seq<string>): seq<string>
    requires parts != []
  {
    var last := parts[|parts| - 1];
    seq(|parts| - 1, i requires 0 <= i < |parts| - 1 => StripReturn(parts[i]))
    + (if last == "" then [] else [last])
  }

  /** A text of lines, each followed by the same line ending. */
  function Unlines(lines: seq<string>, ending: string): string {
    if lines == [] then "" else lines[0] + ending + Unlines(lines[1..], ending)
  }

  /** Reading lines back gives them all, in order, for both kinds of line endings. */
  lemma {:induction false} LinesRoundTrip(lines: seq<string>, ending: string)
    requires ending == "\n" || ending == "\r\n"
    requires forall i :: 0 <= i < |lines| ==> '\n' !in lines[i]
    requires ending == "\n" ==> forall i :: 0 <= i < |lines| ==> StripReturn(lines[i]) == lines[i]
    ensures Lines(Unlines(lines, ending)) == lines
  {
    if lines == [] {
    } else {
      LinesRoundTrip(lines[1..], ending);
      EndedLine(lines[0], ending, Unlines(lines[1..], ending));
    }
  }

  lemma {:induction false} EndedLine(line: string, ending: string, rest: string)
    requires ending == "\n" || ending == "\r\n"
    requires '\n' !in line && (ending == "\n" ==> StripReturn(line) == line)
    ensures Lines(line + ending + rest) == [line] + Lines(rest)
  {
    var kept := line + ending[..|ending| - 1];
    assert kept + ['\n'] == line + ending;
    LinesCons(kept, rest);
    assert StripReturn(kept) == line;
  }

  lemma {:induction false} LinesCons(line: string, rest: string)
    requires '\n' !in line
    ensures Lines(line + ['\n'] + rest) == [StripReturn(line)] + Lines(rest)
  {
    SplitCons(line, rest, '\n');
    StrippedCons(line, Split(rest, '\n'));
  }

  lemma {:induction false} StrippedCons(line: string, parts: seq<string>)
    requires parts != []
    ensures Stripped([line] + parts) == [StripReturn(line)] + Stripped(parts)
  {
    var more := [line] + parts;
    assert more[|more| - 1] == parts[|parts| - 1];
    assert forall i :: 1 <= i < |more| ==> more[i] == parts[i - 1];
  }

  /** `r` consists of the elements of `s` at the positions `at`, in their order. */
  ghost predicate Picks<T>(s: seq<T>, at: seq<nat>, r: seq<T>) {
    && |at| == |r|
    && (forall i, j :: 0 <= i < j < |at| ==> at[i] < at[j])
    && (forall i :: 0 <= i < |at| ==> at[i] < |s| && r[i] == s[at[i]])
  }

  lemma {:induction false} PicksSnoc<T>(s: seq<T>, at: seq<nat>, r: seq<T>, x: T)
    requires Picks(s, at, r)
    ensures Picks(s + [x], at, r) && Picks(s + [x], at + [|s|], r + [x])
  {
  }
}

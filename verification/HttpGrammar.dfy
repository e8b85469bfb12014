/** Which texts are requests: a grammar by positions and characters, and that the parser accepts exactly its texts. */
module HttpGrammar {
  import opened Common
  import opened Text
  import opened Http

  // ----- Words -----

  predicate AllSpace(s: string) {
    forall i :: 0 <= i < |s| ==> IsSpace(s[i])
  }

  predicate NoSpace(s: string) {
    forall i :: 0 <= i < |s| ==> !IsSpace(s[i])
  }

  /** The text is these words, each behind spaces and the last before spaces. */
  ghost predicate Spells(s: string, words: seq<string>)
    decreases |words|
  {
    if words == [] then AllSpace(s)
    else exists gap: string, rest: string :: SpellsFirst(s, words[0], gap, rest) && Spells(rest, words[1..])
  }

  predicate SpellsFirst(s: string, word: string, gap: string, rest: string) {
    s == gap + word + rest && AllSpace(gap) && word != "" && NoSpace(word) && (rest == "" || IsSpace(rest[0]))
  }

  lemma {:induction false} SkipSpaceIs(gap: string, rest: string)
    requires AllSpace(gap) && (rest == "" || !IsSpace(rest[0]))
    ensures SkipSpace(gap + rest) == rest
    decreases |gap|
  {
    if gap == "" {
      assert gap + rest == rest;
    } else {
      assert (gap + rest)[1..] == gap[1..] + rest;
      SkipSpaceIs(gap[1..], rest);
    }
  }

  lemma {:induction false} SkippedIsSpace(s: string)
    ensures var t := SkipSpace(s); s == s[..|s| - |t|] + t && AllSpace(s[..|s| - |t|])
    decreases |s|
  {
    if s != "" && IsSpace(s[0]) {
      SkippedIsSpace(s[1..]);
      var t := SkipSpace(s[1..]);
      assert s == [s[0]] + s[1..];
      assert s[..|s| - |t|] == [s[0]] + s[1..][..|s| - 1 - |t|];
    }
  }

  lemma {:induction false} WordIs(s: string)
    ensures var w := Word(s); s == w + s[|w|..] && NoSpace(w) && (|w| == |s| || IsSpace(s[|w|]))
    decreases |s|
  {
    if s != "" && !IsSpace(s[0]) {
      WordIs(s[1..]);
      assert s[1..][|Word(s[1..])|..] == s[|Word(s)|..];
    }
  }

  lemma {:induction false} WordOfSolid(w: string, rest: string)
    requires NoSpace(w) && (rest == "" || IsSpace(rest[0]))
    ensures Word(w + rest) == w
    decreases |w|
  {
    if w == "" {
      assert w + rest == rest;
    } else {
      assert (w + rest)[1..] == w[1..] + rest;
      WordOfSolid(w[1..], rest);
    }
  }

  lemma {:induction false} WordsSpell(s: string)
    ensures Spells(s, Words(s))
    decreases |s|
  {
    var t := SkipSpace(s);
    SkippedIsSpace(s);
    if t == "" {
      assert s[..|s|] == s;
    } else {
      var w, gap := Word(t), s[..|s| - |t|];
      WordIs(t);
      assert s == gap + w + t[|w|..];
      WordsSpell(t[|w|..]);
      var words := Words(s);
      assert words[0] == w && words[1..] == Words(t[|w|..]);
      assert SpellsFirst(s, words[0], gap, t[|w|..]);
    }
  }

  lemma {:induction false} SpelledIsWords(s: string, words: seq<string>)
    requires Spells(s, words)
    ensures Words(s) == words
    decreases |words|
  {
    if words == [] {
      assert s + "" == s;
      SkipSpaceIs(s, "");
    } else {
      var gap: string, rest: string :| SpellsFirst(s, words[0], gap, rest) && Spells(rest, words[1..]);
      assert s == gap + (words[0] + rest);
      SkipSpaceIs(gap, words[0] + rest);
      WordOfSolid(words[0], rest);
      assert (words[0] + rest)[|words[0]|..] == rest;
      SpelledIsWords(rest, words[1..]);
    }
  }

  /** Reading words is the inverse of spelling them, for every text. */
  lemma WordsExactly(s: string, words: seq<string>)
    ensures Words(s) == words <==> Spells(s, words)
  {
    hide Words, Spells;
    WordsSpell(s);
    if Spells(s, words) { SpelledIsWords(s, words); }
  }

  // ----- Trimming -----

  lemma {:induction false} TrimLeftIs(s: string)
    ensures exists gap: string :: s == gap + TrimLeft(s) && AllSpace(gap)
    ensures TrimLeft(s) == "" || !IsSpace(TrimLeft(s)[0])
    decreases |s|
  {
    if s != "" && IsSpace(s[0]) {
      TrimLeftIs(s[1..]);
      var gap: string :| s[1..] == gap + TrimLeft(s[1..]) && AllSpace(gap);
      assert s == ([s[0]] + gap) + TrimLeft(s) && AllSpace([s[0]] + gap);
    } else {
      assert s == "" + s && AllSpace("");
    }
  }

  lemma {:induction false} TrimRightIs(s: string)
    ensures exists gap: string :: s == TrimRight(s) + gap && AllSpace(gap)
    ensures TrimRight(s) == "" || !IsSpace(TrimRight(s)[|TrimRight(s)| - 1])
    decreases |s|
  {
    if s != "" && IsSpace(s[|s| - 1]) {
      var t := s[..|s| - 1];
      TrimRightIs(t);
      var gap: string :| t == TrimRight(t) + gap && AllSpace(gap);
      assert s == TrimRight(s) + (gap + [s[|s| - 1]]) && AllSpace(gap + [s[|s| - 1]]);
    } else {
      assert s == s + "" && AllSpace("");
    }
  }

  /** The text between the spaces at its ends. */
  predicate Tight(s: string) {
    s == "" || (!IsSpace(s[0]) && !IsSpace(s[|s| - 1]))
  }

  ghost predicate Trimmed(s: string, t: string) {
    Tight(t) && exists a: string, b: string :: s == a + t + b && AllSpace(a) && AllSpace(b)
  }

  lemma TrimIs(s: string)
    ensures Trimmed(s, Trim(s))
  {
    TrimLeftIs(s);
    TrimRightIs(TrimLeft(s));
    hide TrimLeft, TrimRight;
    var t := Trim(s);
    var a: string :| s == a + TrimLeft(s) && AllSpace(a);
    var b: string :| TrimLeft(s) == t + b && AllSpace(b);
    assert s == a + t + b;
    if t != "" { assert TrimLeft(s)[0] == t[0]; }
  }

  /** A letter case-folds to itself in lower case, and nothing else changes. */
  lemma LowerFolds(s: string)
    ensures Lower(Lower(s)) == Lower(s) && |Lower(s)| == |s|
    ensures forall i :: 0 <= i < |s| ==> !('A' <= Lower(s)[i] <= 'Z') && (s[i] == Lower(s)[i] || s[i] as int + 32 == Lower(s)[i] as int)
    ensures forall i :: 0 <= i < |s| && !('A' <= s[i] <= 'Z') ==> Lower(s)[i] == s[i]
  {}

  // ----- Header lines -----

  lemma {:induction false} BeforeIs(s: string, c: char)
    ensures c !in Before(s, c).0
    ensures c in s ==> s == Before(s, c).0 + [c] + Before(s, c).1
    ensures c !in s ==> Before(s, c) == (s, "")
    decreases |s|
  {
    if s != "" {
      BeforeIs(s[1..], c);
      assert s == [s[0]] + s[1..];
    }
  }

  function NameOf(line: string): string {
    Lower(Trim(Before(line, ':').0))
  }

  function ValueOf(line: string): string {
    var value := Trim(Before(line, ':').1);
    if NameOf(line) == "connection" then Lower(value) else value
  }

  predicate GoodLine(line: string) {
    ':' in line && line[0] != ':' && NameOf(line) != "" && |Trim(Before(line, ':').1)| <= 64 * 1024
  }

  lemma OccursColon(line: string, j: int)
    ensures Occurs(line, ":", j) <==> 0 <= j < |line| && line[j] == ':'
  {
    if 0 <= j < |line| { assert line[j..j + 1] == [line[j]]; }
  }

  lemma FindColon(line: string, k: nat)
    requires k < |line| && line[k] == ':' && forall j :: 0 <= j < k ==> line[j] != ':'
    ensures Find(line, ":", 0) == Some(k)
  {
    hide Find, Occurs;
    forall j: int ensures Occurs(line, ":", j) <==> 0 <= j < |line| && line[j] == ':' { OccursColon(line, j); }
  }

  lemma NoColon(line: string)
    requires ':' !in line
    ensures Find(line, ":", 0) == None
  {
    hide Find, Occurs;
    forall j: int ensures !Occurs(line, ":", j) { OccursColon(line, j); }
  }

  lemma ColonIs(line: string)
    ensures Find(line, ":", 0) == if ':' in line then Some(|Before(line, ':').0|) else None
    ensures ':' in line ==> var k := |Before(line, ':').0|;
                            k < |line| && line[..k] == Before(line, ':').0 && line[k + 1..] == Before(line, ':').1
  {
    hide Find, Before;
    BeforeIs(line, ':');
    if ':' in line {
      var name, k := Before(line, ':').0, |Before(line, ':').0|;
      assert line[k] == ':' && forall j :: 0 <= j < k ==> line[j] == name[j];
      FindColon(line, k);
    } else {
      NoColon(line);
    }
  }

  /** A line is taken exactly when it has a colon behind a name that is new, and a value that is not too long. */
  lemma AddLineExactly(headers: Headers, line: string)
    ensures AddLine(headers, line).Lines? <==> GoodLine(line) && NameOf(line) !in headers
    ensures AddLine(headers, line).Lines? ==> AddLine(headers, line).headers == headers[NameOf(line) := ValueOf(line)]
    ensures ':' !in line || line[0] == ':' ==> AddLine(headers, line) == BadLines(BadHeader)
    ensures GoodLine(line) && NameOf(line) in headers ==> AddLine(headers, line) == BadLines(DuplicateHeader)
  {
    hide Find, Before, Trim, Lower;
    ColonIs(line);
    BeforeIs(line, ':');
  }

  /** From the cursor on the block is these lines: each ends where the next line break is, or at the end of the block. */
  predicate HasLines(block: string, cursor: nat, lines: seq<string>)
    decreases |lines|
  {
    if lines == [] then cursor >= |block|
    else cursor < |block| && IsLine(block, cursor, lines[0]) && HasLines(block, cursor + |lines[0]| + 2, lines[1..])
  }

  predicate IsLine(block: string, cursor: nat, line: string) {
    var end := cursor + |line|;
    && end <= |block| && block[cursor..end] == line
    && (end == |block| || Occurs(block, CRLF, end))
    && forall j :: cursor <= j < end ==> !Occurs(block, CRLF, j)
  }

  lemma LineEndIs(block: string, cursor: nat)
    requires cursor <= |block|
    ensures IsLine(block, cursor, block[cursor..LineEnd(block, cursor)])
  {
    hide Find, Occurs;
    var found := Find(block, CRLF, cursor);
    if found.Some? { OccursFits(block, CRLF, found.value); }
  }

  lemma OneLine(block: string, cursor: nat, line: string)
    requires cursor <= |block| && IsLine(block, cursor, line)
    ensures LineEnd(block, cursor) == cursor + |line|
  {
    hide Find, Occurs;
    var found := Find(block, CRLF, cursor);
    if found.Some? {
      OccursFits(block, CRLF, found.value);
    }
  }

  lemma {:induction false} LinesExist(block: string, cursor: nat) returns (lines: seq<string>)
    ensures HasLines(block, cursor, lines)
    decreases |block| - cursor
  {
    if cursor >= |block| {
      lines := [];
    } else {
      hide LineEnd, IsLine;
      var line := block[cursor..LineEnd(block, cursor)];
      LineEndIs(block, cursor);
      var more := LinesExist(block, cursor + |line| + 2);
      lines := [line] + more;
      assert lines[1..] == more;
    }
  }

  /** Every line is good and no name comes twice, or is one of the names seen before. */
  predicate NewLines(lines: seq<string>, seen: Headers) {
    && (forall i :: 0 <= i < |lines| ==> GoodLine(lines[i]) && NameOf(lines[i]) !in seen)
    && (forall i, j :: 0 <= i < j < |lines| ==> NameOf(lines[i]) != NameOf(lines[j]))
  }

  /** The map holds the value of every line, and nothing but these and what was there before. */
  ghost predicate Gathers(lines: seq<string>, seen: Headers, headers: Headers) {
    && (forall i :: 0 <= i < |lines| ==> NameOf(lines[i]) in headers && headers[NameOf(lines[i])] == ValueOf(lines[i]))
    && (forall n :: n in seen ==> n in headers && headers[n] == seen[n])
    && (forall n :: n in headers ==> n in seen || NamedIn(lines, n))
  }

  predicate NamedIn(lines: seq<string>, n: string) {
    exists i :: 0 <= i < |lines| && NameOf(lines[i]) == n
  }

  lemma NewLinesSplit(lines: seq<string>, seen: Headers)
    requires lines != []
    ensures NewLines(lines, seen) <==>
            GoodLine(lines[0]) && NameOf(lines[0]) !in seen && NewLines(lines[1..], seen[NameOf(lines[0]) := ValueOf(lines[0])])
  {
    hide NameOf, ValueOf, GoodLine;
    var rest, more := lines[1..], seen[NameOf(lines[0]) := ValueOf(lines[0])];
    if NewLines(lines, seen) {
      forall i | 0 <= i < |rest| ensures GoodLine(rest[i]) && NameOf(rest[i]) !in more { assert rest[i] == lines[i + 1]; }
    }
    if GoodLine(lines[0]) && NameOf(lines[0]) !in seen && NewLines(rest, more) {
      forall i | 0 < i < |lines| ensures GoodLine(lines[i]) && NameOf(lines[i]) !in more { assert lines[i] == rest[i - 1]; }
      forall i, j | 0 <= i < j < |lines| ensures NameOf(lines[i]) != NameOf(lines[j]) {
        if i > 0 { assert lines[i] == rest[i - 1] && lines[j] == rest[j - 1]; }
      }
    }
  }

  lemma GathersFirst(lines: seq<string>, seen: Headers, headers: Headers)
    requires lines != [] && NameOf(lines[0]) !in seen
    requires Gathers(lines[1..], seen[NameOf(lines[0]) := ValueOf(lines[0])], headers)
    ensures Gathers(lines, seen, headers)
  {
    hide NameOf, ValueOf;
    var rest, more := lines[1..], seen[NameOf(lines[0]) := ValueOf(lines[0])];
    forall i | 0 <= i < |lines| ensures NameOf(lines[i]) in headers && headers[NameOf(lines[i])] == ValueOf(lines[i]) {
      if i > 0 { assert lines[i] == rest[i - 1]; } else { assert NameOf(lines[0]) in more; }
    }
    forall n | n in seen ensures n in headers && headers[n] == seen[n] { assert n in more; }
    forall n | n in headers ensures n in seen || NamedIn(lines, n) {
      if NamedIn(rest, n) {
        var i :| 0 <= i < |rest| && NameOf(rest[i]) == n;
        assert lines[i + 1] == rest[i];
      } else {
        assert n in more;
      }
    }
  }

  /** The header loop succeeds exactly on good lines with new names, and gathers exactly their values. */
  lemma {:induction false} HeaderLinesExactly(block: string, cursor: nat, seen: Headers, lines: seq<string>)
    requires HasLines(block, cursor, lines)
    ensures var r := HeaderLines(block, cursor, seen);
            && (r.Lines? <==> NewLines(lines, seen))
            && (r.Lines? ==> Gathers(lines, seen, r.headers))
    decreases |lines|
  {
    hide IsLine, AddLine, LineEnd, GoodLine, NameOf, ValueOf, NewLines, Gathers;
    if lines == [] {
      NothingGathered(seen);
    } else {
      OneLine(block, cursor, lines[0]);
      LineIs(block, cursor, lines[0]);
      AddLineExactly(seen, lines[0]);
      NewLinesSplit(lines, seen);
      if AddLine(seen, lines[0]).Lines? {
        var more := seen[NameOf(lines[0]) := ValueOf(lines[0])];
        HeaderLinesExactly(block, cursor + |lines[0]| + 2, more, lines[1..]);
        var r := HeaderLines(block, cursor, seen);
        if r.Lines? { GathersFirst(lines, seen, r.headers); }
      }
    }
  }

  lemma NothingGathered(seen: Headers)
    ensures NewLines([], seen) && Gathers([], seen, seen)
  {}

  lemma LineIs(block: string, cursor: nat, line: string)
    requires IsLine(block, cursor, line)
    ensures cursor + |line| <= |block| && block[cursor..cursor + |line|] == line
  {}

  /** The first line that is not good, or repeats a name, decides the error. */
  lemma {:induction false} FirstBadLine(block: string, cursor: nat, seen: Headers, lines: seq<string>, k: nat)
    requires HasLines(block, cursor, lines) && k < |lines| && NewLines(lines[..k], seen)
    ensures ':' !in lines[k] || lines[k][0] == ':' ==> HeaderLines(block, cursor, seen) == BadLines(BadHeader)
    ensures GoodLine(lines[k]) && (NameOf(lines[k]) in seen || NamedIn(lines[..k], NameOf(lines[k]))) ==>
              HeaderLines(block, cursor, seen) == BadLines(DuplicateHeader)
    decreases |lines|
  {
    hide IsLine, AddLine, LineEnd, GoodLine, NameOf, ValueOf, NewLines;
    OneLine(block, cursor, lines[0]);
    LineIs(block, cursor, lines[0]);
    AddLineExactly(seen, lines[0]);
    if k > 0 {
      var more := seen[NameOf(lines[0]) := ValueOf(lines[0])];
      assert lines[..k][0] == lines[0] && lines[..k][1..] == lines[1..][..k - 1];
      NewLinesSplit(lines[..k], seen);
      FirstBadLine(block, cursor + |lines[0]| + 2, more, lines[1..], k - 1);
      if NamedIn(lines[..k], NameOf(lines[k])) {
        var i :| 0 <= i < |lines[..k]| && NameOf(lines[..k][i]) == NameOf(lines[k]);
        if i > 0 { assert lines[1..][..k - 1][i - 1] == lines[..k][i]; }
      }
    }
  }

  // ----- The length -----

  lemma {:induction false} ReadDigitsIs(s: string, n: nat, acc: nat)
    requires n <= |s| && (forall i :: 0 <= i < n ==> IsDigit(s[i])) && (n == |s| || !IsDigit(s[n]))
    ensures ReadDigits(s, acc).1 == s[n..]
    decreases n
  {
    if n > 0 {
      ReadDigitsIs(s[1..], n - 1, 10 * acc + DigitValue(s[0]));
      assert s[1..][n - 1..] == s[n..];
    }
  }

  lemma {:induction false} DigitsRead(s: string)
    requires forall i :: 0 <= i < |s| ==> IsDigit(s[i])
    ensures ReadDigits(s, 0) == (Value(s), "")
    decreases |s|
  {
    if s != "" {
      var front, last := s[..|s| - 1], s[|s| - 1];
      DigitsRead(front);
      ReadThen(front, last, 0);
      assert s == front + [last];
    }
  }

  lemma {:induction false} ReadThen(front: string, last: char, acc: nat)
    requires IsDigit(last) && forall i :: 0 <= i < |front| ==> IsDigit(front[i])
    ensures ReadDigits(front + [last], acc) == (10 * ReadDigits(front, acc).0 + DigitValue(last), "")
    decreases |front|
  {
    if front == "" {
      assert (front + [last])[1..] == "";
    } else {
      assert (front + [last])[1..] == front[1..] + [last];
      ReadThen(front[1..], last, 10 * acc + DigitValue(front[0]));
    }
  }

  lemma {:induction false} FirstOther(s: string) returns (n: nat)
    ensures n <= |s| && (forall i :: 0 <= i < n ==> IsDigit(s[i])) && (n == |s| || !IsDigit(s[n]))
    decreases |s|
  {
    if s == "" || !IsDigit(s[0]) { return 0; }
    n := FirstOther(s[1..]);
    assert forall i :: 1 <= i < n + 1 ==> s[i] == s[1..][i - 1];
    n := n + 1;
  }

  /** A length is its decimal value, of digits only and below 2^64. */
  lemma ContentLengthExactly(text: string, n: nat)
    ensures ContentLength(text) == Some(n) <==> AllDigits(text) && Value(text) == n && n < SIZE_LIMIT
  {
    hide ReadDigits, Value;
    var k := FirstOther(text);
    ReadDigitsIs(text, k, 0);
    if AllDigits(text) { DigitsRead(text); }
  }

  // ----- The head and the request -----

  /** The checks behind the header lines; the body has this length. */
  ghost predicate Frames(headers: Headers, length: nat) {
    && "host" in headers
    && ("transfer-encoding" in headers ==> Lower(headers["transfer-encoding"]) == "identity")
    && (if "content-length" in headers then AllDigits(headers["content-length"]) && Value(headers["content-length"]) == length
        else length == 0)
    && length <= 8 * 1024 * 1024
  }

  /** Start line, line break, header lines. */
  ghost predicate WellFormed(block: string, start: string, lines: seq<string>,
                             verb: string, target: string, headers: Headers, length: nat) {
    && IsLine(block, 0, start) && |start| < |block|
    && Spells(start, [verb, target, "HTTP/1.1"]) && |target| <= 8192
    && HasLines(block, |start| + 2, lines) && NewLines(lines, map[]) && Gathers(lines, map[], headers)
    && Frames(headers, length)
  }

  lemma FramingExactly(verb: string, target: string, headers: Headers, head: Head)
    requires head.Head?
    ensures Framing(verb, target, headers) == head <==>
            head.verb == verb && head.target == target && head.headers == headers && Frames(headers, head.length)
  {
    hide ContentLength, Lower, Value;
    if "content-length" in headers {
      ContentLengthExactly(headers["content-length"], head.length);
      var c := ContentLength(headers["content-length"]);
      if c.Some? { ContentLengthExactly(headers["content-length"], c.value); }
    }
  }

  lemma StartIs(block: string, start: string)
    requires IsLine(block, 0, start) && |start| < |block|
    ensures Find(block, CRLF, 0) == Some(|start|) && block[..|start|] == start
  {
    hide Find, Occurs;
  }

  lemma StartExists(block: string)
    requires Find(block, CRLF, 0).Some?
    ensures var n := Find(block, CRLF, 0).value; n < |block| && IsLine(block, 0, block[..n])
  {
    hide Find;
    OccursFits(block, CRLF, Find(block, CRLF, 0).value);
  }

  lemma WellFormedIsParsed(block: string, start: string, lines: seq<string>,
                           verb: string, target: string, headers: Headers, length: nat)
    requires WellFormed(block, start, lines, verb, target, headers, length)
    ensures ParseHead(block) == Head(verb, target, headers, length)
  {
    hide Find, Words, Spells, HeaderLines, HasLines, NewLines, Gathers, Framing, Frames, IsLine;
    StartIs(block, start);
    WordsExactly(start, [verb, target, "HTTP/1.1"]);
    HeaderLinesExactly(block, |start| + 2, map[], lines);
    var gathered := HeaderLines(block, |start| + 2, map[]).headers;
    SameHeaders(lines, headers, gathered);
    FramingExactly(verb, target, headers, Head(verb, target, headers, length));
  }

  lemma SameHeaders(lines: seq<string>, a: Headers, b: Headers)
    requires Gathers(lines, map[], a) && Gathers(lines, map[], b)
    ensures a == b
  {
    hide NameOf, ValueOf;
    assert forall n :: n in a <==> n in b;
  }

  lemma ParsedIsWellFormed(block: string) returns (start: string, lines: seq<string>)
    requires ParseHead(block).Head?
    ensures var h := ParseHead(block); WellFormed(block, start, lines, h.verb, h.target, h.headers, h.length)
  {
    hide Find, Words, Spells, HeaderLines, HasLines, NewLines, Gathers, Framing, Frames, IsLine;
    StartExists(block);
    var n := Find(block, CRLF, 0).value;
    start := block[..n];
    var words := Words(start);
    WordsExactly(start, words);
    lines := LinesExist(block, n + 2);
    HeaderLinesExactly(block, n + 2, map[], lines);
    var headers := HeaderLines(block, n + 2, map[]).headers;
    FramingExactly(words[0], words[1], headers, ParseHead(block));
    assert words == [words[0], words[1], "HTTP/1.1"];
  }

  /** For every block: it is read as this head exactly when the grammar has it, and otherwise refused. */
  lemma HeadExactly(block: string, verb: string, target: string, headers: Headers, length: nat)
    ensures ParseHead(block) == Head(verb, target, headers, length)
            <==> exists start, lines :: WellFormed(block, start, lines, verb, target, headers, length)
  {
    hide ParseHead, WellFormed;
    if ParseHead(block) == Head(verb, target, headers, length) {
      var start, lines := ParsedIsWellFormed(block);
    }
    if exists start, lines :: WellFormed(block, start, lines, verb, target, headers, length) {
      var start, lines :| WellFormed(block, start, lines, verb, target, headers, length);
      WellFormedIsParsed(block, start, lines, verb, target, headers, length);
    }
  }

  /**
   For every text: it is read as a complete request of `n` bytes exactly when it starts with a block of the grammar, the
   blank line that ends it and a body of the announced length, and the block with its blank line fits the header limit.
   */
  lemma ParseExactly(raw: string, r: Request, n: nat)
    ensures Parse(raw) == Complete(r, n)
            <==> exists end: nat :: IsRequest(raw, r, n, end)
  {
    hide Find, ParseHead, WellFormed;
    if Parse(raw) == Complete(r, n) {
      var end := Find(raw, BLANK_LINE, 0).value;
      HeadExactly(raw[..end], r.verb, r.target, r.headers, |r.body|);
      assert IsRequest(raw, r, n, end);
    }
    if exists end: nat :: IsRequest(raw, r, n, end) {
      var end: nat :| IsRequest(raw, r, n, end);
      HeadExactly(raw[..end], r.verb, r.target, r.headers, |r.body|);
      assert Occurs(raw, BLANK_LINE, end);
    }
  }

  ghost predicate IsRequest(raw: string, r: Request, n: nat, end: nat) {
    && end + 4 <= 64 * 1024 && n == end + 4 + |r.body| <= |raw|
    && raw[end..end + 4] == "\r\n\r\n" && (forall j :: 0 <= j < end ==> !Occurs(raw, BLANK_LINE, j))
    && (exists start, lines :: WellFormed(raw[..end], start, lines, r.verb, r.target, r.headers, |r.body|))
    && raw[end + 4..n] == r.body
  }

  /** What is refused before the framing is looked at, and with which error. */
  lemma RefusedHeads(block: string, start: string, words: seq<string>, lines: seq<string>, k: nat)
    requires IsLine(block, 0, start) && |start| < |block| && Spells(start, words)
    requires HasLines(block, |start| + 2, lines) && k < |lines| && NewLines(lines[..k], map[])
    ensures var line := |words| == 3 && |words[1]| <= 8192 && words[2] == "HTTP/1.1";
            && (!line ==> ParseHead(block) == BadHead(BadRequestLine))
            && (line && (':' !in lines[k] || lines[k][0] == ':') ==> ParseHead(block) == BadHead(BadHeader))
            && (line && GoodLine(lines[k]) && NamedIn(lines[..k], NameOf(lines[k])) ==> ParseHead(block) == BadHead(DuplicateHeader))
  {
    hide Find, Words, Spells, HeaderLines, HasLines, NewLines, IsLine, GoodLine, NamedIn, NameOf, Framing;
    StartIs(block, start);
    WordsExactly(start, words);
    FirstBadLine(block, |start| + 2, map[], lines, k);
  }

  /** A request whose only line is the request line has no line break before the blank line. */
  lemma NoRequestLine(block: string)
    requires forall j :: 0 <= j ==> !Occurs(block, CRLF, j)
    ensures ParseHead(block) == BadHead(MissingRequestLine)
  {
    hide Find, Occurs;
  }
}

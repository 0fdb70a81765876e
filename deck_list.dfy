/**
 * The deck-list parser `getCardNameList`: the pasted text is split on "\n"
 * and each line keeps the match of the ECMAScript regular expression
 * `/([A-Za-z].*)/`; lines without a match are dropped.
 */
module DeckList {
  import opened Wrappers
  import opened Strings

  /** `[A-Za-z]`: only the 52 ASCII letters. */
  predicate IsAsciiLetter(c: char) {
    ('A' <= c <= 'Z') || ('a' <= c <= 'z')
  }

  /** The LineTerminator code points of ECMA-262 section 12.3, which `.` does not match. */
  predicate IsLineTerminator(c: char) {
    c == '\n' || c == '\r' || c == '\U{2028}' || c == '\U{2029}'
  }

  /** `deckList.split("\n")`. */
  function Lines(text: string): seq<string> {
    Split(text, '\n')
  }

  /** The index of the first ASCII letter at or after `from`, if any. */
  function FirstLetterFrom(line: string, from: nat): (k: Option<nat>)
    requires from <= |line|
    ensures k.Some? ==> from <= k.value < |line| && IsAsciiLetter(line[k.value])
    ensures forall j :: from <= j < (if k.Some? then k.value else |line|) ==> !IsAsciiLetter(line[j])
    decreases |line| - from
  {
    if from == |line| then None
    else if IsAsciiLetter(line[from]) then Some(from)
    else FirstLetterFrom(line, from + 1)
  }

  /** The end of the greedy `.*` run that starts at `from`: the first line terminator at or after it. */
  function RunEnd(line: string, from: nat): (e: nat)
    requires from <= |line|
    ensures from <= e <= |line|
    ensures e < |line| ==> IsLineTerminator(line[e])
    ensures forall j :: from <= j < e ==> !IsLineTerminator(line[j])
    decreases |line| - from
  {
    if from == |line| || IsLineTerminator(line[from]) then from else RunEnd(line, from + 1)
  }

  /**
   * `line.match(/([A-Za-z].*)/)?.[0]`: the leftmost match, which starts at the
   * first ASCII letter and runs up to the first line terminator after it.
   */
  function MatchLine(line: string): (m: Option<string>)
    ensures m.None? <==> forall j :: 0 <= j < |line| ==> !IsAsciiLetter(line[j])
    ensures m.Some? ==> WellFormedName(m.value)
    ensures m.Some? ==> exists k :: MatchesAt(line, k, m.value)
  {
    match FirstLetterFrom(line, 0)
    case None => None
    case Some(k) =>
      var name := line[k..RunEnd(line, k + 1)];
      assert MatchesAt(line, k, name);
      Some(name)
  }

  /** A card name as the parser produces it: non-empty, first an ASCII letter, no line terminator. */
  predicate WellFormedName(name: string) {
    && |name| > 0
    && IsAsciiLetter(name[0])
    && forall j :: 0 <= j < |name| ==> !IsLineTerminator(name[j])
  }

  /**
   * `name` sits in `line` at `k`: nothing before `k` is an ASCII letter, and the
   * line ends right after `name` or continues with a line terminator.
   */
  predicate MatchesAt(line: string, k: nat, name: string) {
    && k + |name| <= |line|
    && line[k..k + |name|] == name
    && (forall j :: 0 <= j < k ==> !IsAsciiLetter(line[j]))
    && (k + |name| == |line| || IsLineTerminator(line[k + |name|]))
  }

  /** JavaScript truthiness of `matches ? matches[0] : null`: null and "" are dropped. */
  predicate Truthy(m: Option<string>) {
    m.Some? && m.value != ""
  }

  /** `.filter((cardName) => cardName)` over the per-line matches. */
  function KeepTruthy(ms: seq<Option<string>>): (kept: seq<string>)
    ensures |kept| <= |ms|
    ensures forall n :: n in kept ==> n != "" && Some(n) in ms
  {
    if ms == [] then []
    else (if Truthy(ms[0]) then [ms[0].value] else []) + KeepTruthy(ms[1..])
  }

  /** `lines.map((line) => ...)`. */
  function MatchAll(lines: seq<string>): (ms: seq<Option<string>>)
    ensures |ms| == |lines|
    ensures forall i :: 0 <= i < |lines| ==> ms[i] == MatchLine(lines[i])
  {
    seq(|lines|, i requires 0 <= i < |lines| => MatchLine(lines[i]))
  }

  /** `getCardNameList(deckList)`. */
  function CardNameList(deckList: string): (names: seq<string>)
    ensures |names| <= |Lines(deckList)|
    ensures forall n :: n in names ==> WellFormedName(n)
  {
    KeepTruthy(MatchAll(Lines(deckList)))
  }

  lemma {:induction false} KeepTruthyAppend(xs: seq<Option<string>>, ys: seq<Option<string>>)
    ensures KeepTruthy(xs + ys) == KeepTruthy(xs) + KeepTruthy(ys)
  {
    if xs == [] {
      assert xs + ys == ys;
    } else {
      assert (xs + ys)[1..] == xs[1..] + ys;
      KeepTruthyAppend(xs[1..], ys);
    }
  }

  /**
   * The names of two deck lists joined by a newline are the names of the first
   * followed by those of the second: lines are handled one at a time, in order,
   * and a repeated line gives a repeated name.
   */
  lemma CardNameListAppend(a: string, b: string)
    ensures CardNameList(a + "\n" + b) == CardNameList(a) + CardNameList(b)
  {
    assert a + "\n" + b == a + ['\n'] + b;
    SplitAppend(a, b, '\n');
    MatchAllAppend(Lines(a), Lines(b));
    KeepTruthyAppend(MatchAll(Lines(a)), MatchAll(Lines(b)));
  }

  lemma MatchAllAppend(xs: seq<string>, ys: seq<string>)
    ensures MatchAll(xs + ys) == MatchAll(xs) + MatchAll(ys)
  {
    var l, r := MatchAll(xs + ys), MatchAll(xs) + MatchAll(ys);
    assert |l| == |r|;
    forall k | 0 <= k < |l|
      ensures l[k] == r[k]
    {
      if k < |xs| {
        assert (xs + ys)[k] == xs[k];
      } else {
        assert (xs + ys)[k] == ys[k - |xs|];
      }
    }
  }

  /** A text without "\n" is one line: it gives its match, or nothing when it has no ASCII letter. */
  lemma {:induction false} CardNameListOfLine(line: string)
    requires '\n' !in line
    ensures CardNameList(line) == if MatchLine(line).Some? then [MatchLine(line).value] else []
  {
    SplitWithoutSeparator(line, '\n');
    var ms := MatchAll([line]);
    assert ms == [MatchLine(line)];
    assert KeepTruthy(ms) == (if Truthy(ms[0]) then [ms[0].value] else []) + KeepTruthy([]);
  }

  /** The first ASCII letter of a line, found by the scan from the start. */
  lemma {:induction false} FirstLetterAt(line: string, from: nat, k: nat)
    requires from <= k < |line| && IsAsciiLetter(line[k])
    requires forall j :: from <= j < k ==> !IsAsciiLetter(line[j])
    ensures FirstLetterFrom(line, from) == Some(k)
    decreases k - from
  {
    if from < k {
      FirstLetterAt(line, from + 1, k);
    }
  }

  /** A run with no line terminator extends to the end of the line. */
  lemma {:induction false} RunToEnd(line: string, from: nat)
    requires from <= |line|
    requires forall j :: from <= j < |line| ==> !IsLineTerminator(line[j])
    ensures RunEnd(line, from) == |line|
    decreases |line| - from
  {
    if from < |line| {
      RunToEnd(line, from + 1);
    }
  }

  lemma {:induction false} KeepTruthyBounds(ms: seq<Option<string>>)
    requires forall i :: 0 <= i < |ms| ==> ms[i].Some? ==> WellFormedName(ms[i].value)
    ensures |KeepTruthy(ms)| <= |ms|
    ensures forall n :: n in KeepTruthy(ms) ==> WellFormedName(n) && Some(n) in ms
  {
    if ms != [] {
      KeepTruthyBounds(ms[1..]);
    }
  }

  /**
   * At most one name per line, each one well formed and the match of one of
   * the lines.
   */
  lemma CardNameListBounds(deckList: string)
    ensures |CardNameList(deckList)| <= Occurrences(deckList, '\n') + 1
    ensures forall n :: n in CardNameList(deckList) ==>
      WellFormedName(n) && exists i :: 0 <= i < |Lines(deckList)| && MatchLine(Lines(deckList)[i]) == Some(n)
  {
    var ms := MatchAll(Lines(deckList));
    KeepTruthyBounds(ms);
    forall n | n in CardNameList(deckList)
      ensures exists i :: 0 <= i < |Lines(deckList)| && MatchLine(Lines(deckList)[i]) == Some(n)
    {
      var i :| 0 <= i < |ms| && ms[i] == Some(n);
    }
  }

  /** Empty text is one empty line, which has no name. */
  lemma EmptyDeckList()
    ensures CardNameList("") == []
  {
    CardNameListOfLine("");
  }

  /** A leading quantity is stripped: "1 Sol Ring" gives "Sol Ring". */
  lemma QuantityIsStripped()
    ensures CardNameList("1 Sol Ring") == ["Sol Ring"]
  {
    var line := "1 Sol Ring";
    FirstLetterAt(line, 0, 2);
    RunToEnd(line, 3);
    assert line[2..10] == "Sol Ring";
    CardNameListOfLine(line);
  }

  /** A leading non-ASCII letter is lost: "Æther Vial" gives "ther Vial". */
  lemma NonAsciiLetterIsLost()
    ensures CardNameList("Æther Vial") == ["ther Vial"]
  {
    var line := "Æther Vial";
    FirstLetterAt(line, 0, 1);
    RunToEnd(line, 2);
    assert line[1..10] == "ther Vial";
    CardNameListOfLine(line);
  }

  /** The "\r" of a CRLF line ending is not part of the name. */
  lemma CarriageReturnIsDropped()
    ensures CardNameList("1 Sol Ring\r") == ["Sol Ring"]
  {
    var line := "1 Sol Ring\r";
    FirstLetterAt(line, 0, 2);
    RunEndAt(line, 3, 10);
    assert line[2..10] == "Sol Ring";
    CardNameListOfLine(line);
  }

  /** A run stops at the first line terminator. */
  lemma {:induction false} RunEndAt(line: string, from: nat, e: nat)
    requires from <= e < |line| && IsLineTerminator(line[e])
    requires forall j :: from <= j < e ==> !IsLineTerminator(line[j])
    ensures RunEnd(line, from) == e
    decreases e - from
  {
    if from < e {
      RunEndAt(line, from + 1, e);
    }
  }

  /** A blank line between two deck lists adds no name. */
  lemma BlankLineBetween(a: string, b: string)
    ensures CardNameList(a + "\n\n" + b) == CardNameList(a) + CardNameList(b)
  {
    var rest := "" + "\n" + b;
    assert a + "\n\n" + b == a + "\n" + rest;
    CardNameListAppend(a, rest);
    CardNameListAppend("", b);
    EmptyDeckList();
  }

  /** Blank lines are dropped and quantities stripped, line by line. */
  lemma BlankLineIsDropped()
    ensures CardNameList("1 Sol Ring" + "\n\n" + "2 Counterspell") == ["Sol Ring", "Counterspell"]
  {
    BlankLineBetween("1 Sol Ring", "2 Counterspell");
    QuantityIsStripped();
    SecondLine();
  }

  lemma SecondLine()
    ensures CardNameList("2 Counterspell") == ["Counterspell"]
  {
    var line := "2 Counterspell";
    FirstLetterAt(line, 0, 2);
    RunToEnd(line, 3);
    assert line[2..14] == "Counterspell";
    CardNameListOfLine(line);
  }
}

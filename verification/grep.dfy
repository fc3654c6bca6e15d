// The pattern matcher of xv6's grep (CLab/xv6/user/grep.c), against the language that a
// pattern denotes, and the line loop around it.
//
// A C string is the sequence of its characters before the NUL.

module Grep {
  // ------------------------------------------------------- what a pattern denotes

  /** Single(c) is one character, any one if c is '.'; Star(c) is any number of them. */
  datatype Item = Single(c: char) | Star(c: char)

  predicate Fits(c: char, x: char) {
    c == '.' || c == x
  }

  /** The pattern after a leading '^': its items, and whether it ends in an anchor. */
  datatype Parsed = Parsed(items: seq<Item>, anchored: bool)

  /** A star goes with the character before it, whatever that is; a star that no
      character precedes, and a '$' before the end, stand for themselves. */
  function Parse(re: string): Parsed {
    if re == "" then Parsed([], false)
    else if |re| >= 2 && re[1] == '*' then
      var p := Parse(re[2..]);
      Parsed([Star(re[0])] + p.items, p.anchored)
    else if re == "$" then Parsed([], true)
    else
      var p := Parse(re[1..]);
      Parsed([Single(re[0])] + p.items, p.anchored)
  }

  /** All of t fits c. */
  predicate AllFit(c: char, t: string) {
    forall i :: 0 <= i < |t| ==> Fits(c, t[i])
  }

  /** t is in the language of the items. */
  ghost predicate Denotes(items: seq<Item>, t: string) {
    if items == [] then t == ""
    else match items[0]
      case Single(c) => t != "" && Fits(c, t[0]) && Denotes(items[1..], t[1..])
      case Star(c) => exists j :: 0 <= j <= |t| && AllFit(c, t[..j]) && Denotes(items[1..], t[j..])
  }

  /** The first k characters of text match. */
  ghost predicate Prefix(p: Parsed, text: string, k: int) {
    0 <= k <= |text| && Denotes(p.items, text[..k]) && (p.anchored ==> k == |text|)
  }

  /** text begins with a match. */
  ghost predicate Here(p: Parsed, text: string) {
    exists k :: Prefix(p, text, k)
  }

  /** text has a match at offset i. */
  ghost predicate HereAt(p: Parsed, text: string, i: int) {
    0 <= i <= |text| && Here(p, text[i..])
  }

  /** The lines that a pattern selects: at their start for '^', anywhere otherwise. */
  ghost predicate Selects(re: string, text: string) {
    if re != "" && re[0] == '^' then Here(Parse(re[1..]), text)
    else exists i :: HereAt(Parse(re), text, i)
  }

  // ------------------------------------------------------------------- matcher

  lemma HereEmpty(text: string)
    ensures Here(Parse(""), text)
  {
    assert text[..0] == "";
    assert Prefix(Parse(""), text, 0);
  }

  lemma HereAnchor(text: string)
    ensures Here(Parse("$"), text) <==> text == ""
  {
    assert Parse("$") == Parsed([], true);
    if text == "" {
      assert text[..0] == "";
      assert Prefix(Parse("$"), text, 0);
    }
  }

  lemma HereSingle(re: string, text: string)
    requires re != "" && !(|re| >= 2 && re[1] == '*') && re != "$"
    ensures Here(Parse(re), text) <==> text != "" && Fits(re[0], text[0]) && Here(Parse(re[1..]), text[1..])
  {
    var p, q := Parse(re), Parse(re[1..]);
    assert p.items[0] == Single(re[0]) && p.items[1..] == q.items;
    if Here(p, text) {
      var k :| Prefix(p, text, k);
      assert text[..k][1..] == text[1..][..k - 1];
      assert Prefix(q, text[1..], k - 1);
    }
    if text != "" && Fits(re[0], text[0]) && Here(q, text[1..]) {
      var k :| Prefix(q, text[1..], k);
      assert text[..k + 1][1..] == text[1..][..k];
      assert Prefix(p, text, k + 1);
    }
  }

  lemma StarTaken(re: string, text: string, k: int) returns (j: int)
    requires |re| >= 2 && re[1] == '*' && Prefix(Parse(re), text, k)
    ensures StarAt(re[0], Parse(re[2..]), text, j)
  {
    var p, q := Parse(re), Parse(re[2..]);
    assert p.items[0] == Star(re[0]) && p.items[1..] == q.items;
    var t := text[..k];
    j :| 0 <= j <= |t| && AllFit(re[0], t[..j]) && Denotes(q.items, t[j..]);
    assert t[..j] == text[..j];
    assert t[j..] == text[j..][..k - j];
    assert Prefix(q, text[j..], k - j);
  }

  lemma StarGiven(re: string, text: string, j: int)
    requires |re| >= 2 && re[1] == '*' && StarAt(re[0], Parse(re[2..]), text, j)
    ensures Here(Parse(re), text)
  {
    var p, q := Parse(re), Parse(re[2..]);
    assert p.items[0] == Star(re[0]) && p.items[1..] == q.items;
    var k :| Prefix(q, text[j..], k);
    var t := text[..j + k];
    assert t[..j] == text[..j];
    assert t[j..] == text[j..][..k];
    assert Denotes(p.items, t);
    assert Prefix(p, text, j + k);
  }

  /** matchstar's loop stops as soon as the rest matches: any number of repetitions. */
  lemma HereStar(re: string, text: string)
    requires |re| >= 2 && re[1] == '*'
    ensures Here(Parse(re), text) <==> exists j :: StarAt(re[0], Parse(re[2..]), text, j)
  {
    if Here(Parse(re), text) {
      var k := HereLength(Parse(re), text);
      var j := StarTaken(re, text, k);
      assert exists i :: StarAt(re[0], Parse(re[2..]), text, i);
    }
    if exists i :: StarAt(re[0], Parse(re[2..]), text, i) {
      var j :| StarAt(re[0], Parse(re[2..]), text, j);
      StarGiven(re, text, j);
    }
  }

  lemma HereLength(p: Parsed, text: string) returns (k: int)
    requires Here(p, text)
    ensures Prefix(p, text, k)
  {
    k :| Prefix(p, text, k);
  }

  /** After j repetitions of c, the rest of the pattern matches here. */
  ghost predicate StarAt(c: char, p: Parsed, text: string, j: int) {
    0 <= j <= |text| && AllFit(c, text[..j]) && Here(p, text[j..])
  }

  method MatchHere(re: string, text: string) returns (r: bool)
    ensures r <==> Here(Parse(re), text)
    decreases |re|
  {
    if re == "" {
      HereEmpty(text);
      return true;
    }
    if |re| >= 2 && re[1] == '*' {
      HereStar(re, text);
      r := MatchStar(re[0], re[2..], text);
      return;
    }
    if re == "$" {
      HereAnchor(text);
      return text == "";
    }
    HereSingle(re, text);
    if text != "" && (re[0] == '.' || re[0] == text[0]) {
      r := MatchHere(re[1..], text[1..]);
      return;
    }
    r := false;
  }

  method MatchStar(c: char, re: string, text: string) returns (r: bool)
    ensures r <==> exists j :: StarAt(c, Parse(re), text, j)
    decreases |re| + 1
  {
    var i := 0;
    while true
      invariant 0 <= i <= |text| && AllFit(c, text[..i])
      invariant forall j :: 0 <= j < i ==> !StarAt(c, Parse(re), text, j)
      decreases |text| - i
    {
      var m := MatchHere(re, text[i..]);
      if m {
        assert StarAt(c, Parse(re), text, i);
        return true;
      }
      if !(i < |text| && (text[i] == c || c == '.')) {
        break;
      }
      i := i + 1;
    }
    forall j | i < j <= |text| ensures !AllFit(c, text[..j]) {
      assert !Fits(c, text[..j][i]);
    }
    r := false;
  }

  /** match: sound and complete for the language of the pattern. */
  method Match(re: string, text: string) returns (r: bool)
    ensures r <==> Selects(re, text)
  {
    if re != "" && re[0] == '^' {
      r := MatchHere(re[1..], text);
      return;
    }
    var i := 0;
    while true
      invariant 0 <= i <= |text|
      invariant forall j :: 0 <= j < i ==> !HereAt(Parse(re), text, j)
      decreases |text| - i
    {
      var m := MatchHere(re, text[i..]);
      if m {
        assert HereAt(Parse(re), text, i);
        return true;
      }
      if i == |text| {
        break;
      }
      i := i + 1;
    }
    r := false;
  }

  // ------------------------------------------------------------------- lines

  const BUFSIZE := 1024

  /** Where the first newline is, |s| if there is none. */
  function FirstNewline(s: string): (i: nat)
    ensures i <= |s| && (i < |s| ==> s[i] == '\n') && forall k :: 0 <= k < i ==> s[k] != '\n'
  {
    if s == "" || s[0] == '\n' then 0 else 1 + FirstNewline(s[1..])
  }

  /** The selected lines of a text, each with its newline; what follows the last newline
      is no line. */
  ghost function Selected(re: string, s: string): string
    decreases |s|
  {
    var i := FirstNewline(s);
    if i == |s| then ""
    else (if Selects(re, s[..i]) then s[..i + 1] else "") + Selected(re, s[i + 1..])
  }

  /** What follows the last newline. */
  function Tail(s: string): string
    decreases |s|
  {
    var i := FirstNewline(s);
    if i == |s| then s else Tail(s[i + 1..])
  }

  lemma FirstNewlineOf(s: string, i: nat)
    requires i <= |s| && (i < |s| ==> s[i] == '\n') && forall k :: 0 <= k < i ==> s[k] != '\n'
    ensures FirstNewline(s) == i
  {
  }

  lemma FirstLine(re: string, s: string)
    ensures var i := FirstNewline(s);
            && i <= |s|
            && (i == |s| ==> Selected(re, s) == "" && Tail(s) == s)
            && (i < |s| ==>
                  Selected(re, s) == (if Selects(re, s[..i]) then s[..i + 1] else "") + Selected(re, s[i + 1..]))
            && (i < |s| ==> Tail(s) == Tail(s[i + 1..]))
  {
    hide FirstNewline, Selects;
  }

  lemma Slices(s: string, more: string, i: nat)
    requires i < |s|
    ensures (s + more)[..i] == s[..i] && (s + more)[..i + 1] == s[..i + 1]
    ensures (s + more)[i + 1..] == s[i + 1..] + more
  {
  }

  lemma SlicesOfRest(s: string, p: nat, q: nat)
    requires p + q < |s|
    ensures s[p..][..q] == s[p..p + q] && s[p..][..q + 1] == s[p..p + q + 1] && s[p..][q + 1..] == s[p + q + 1..]
  {
  }

  /** Reading on: the part after the last newline is looked at again with what comes. */
  lemma {:induction false} SelectedOn(re: string, s: string, more: string)
    ensures Selected(re, s + more) == Selected(re, s) + Selected(re, Tail(s) + more)
    ensures Tail(s + more) == Tail(Tail(s) + more)
    decreases |s|
  {
    hide *;
    var i := FirstNewline(s);
    FirstLine(re, s);
    if i < |s| {
      FirstNewlineOf(s + more, i);
      FirstLine(re, s + more);
      Slices(s, more, i);
      SelectedOn(re, s[i + 1..], more);
    }
  }

  lemma LineStep(re: string, buf: string, p: nat, q: nat)
    requires p <= |buf| && q == FirstNewline(buf[p..])
    ensures q == |buf| - p ==> Selected(re, buf[p..]) == "" && Tail(buf[p..]) == buf[p..]
    ensures q < |buf| - p ==>
      Selected(re, buf[p..]) ==
        (if Selects(re, buf[p..p + q]) then buf[p..p + q + 1] else "") + Selected(re, buf[p + q + 1..])
    ensures q < |buf| - p ==> Tail(buf[p..]) == Tail(buf[p + q + 1..])
  {
    hide Selects;
    var rest := buf[p..];
    if q < |rest| {
      SlicesOfRest(buf, p, q);
    }
  }

  /** The loop over the whole lines in the buffer. */
  method Lines(re: string, buf: string) returns (out: string, p: nat)
    ensures out == Selected(re, buf) && p <= |buf| && buf[p..] == Tail(buf)
  {
    hide Selected, Tail, Selects, FirstNewline;
    out, p := "", 0;
    assert buf[0..] == buf;
    while true
      invariant 0 <= p <= |buf|
      invariant Selected(re, buf) == out + Selected(re, buf[p..])
      invariant Tail(buf) == Tail(buf[p..])
      decreases |buf| - p
    {
      var q := FirstNewline(buf[p..]);
      LineStep(re, buf, p, q);
      if q == |buf| - p {
        break;
      }
      var m := Match(re, buf[p..p + q]);
      if m {
        out := out + buf[p..p + q + 1];
      }
      p := p + q + 1;
    }
  }

  /** grep, on an input without NULs. Each read() gives between one byte and what there
      is room for; the sizes are given. It prints the selected lines, and stops at the
      end of the input, or at a line that leaves no room in the buffer. */
  method GrepFile(re: string, input: string, sizes: nat -> nat) returns (out: string, pos: nat)
    ensures pos <= |input| && out == Selected(re, input[..pos])
    ensures pos == |input| || |Tail(input[..pos])| == BUFSIZE - 1
  {
    hide Selected, Tail;
    var buf := "";
    out, pos := "", 0;
    var at, k := 0, 0;
    NothingYet(re, input);
    while true
      invariant 0 <= at <= |input| && pos == at && |buf| < BUFSIZE
      invariant buf == Tail(input[..at]) && out == Selected(re, input[..at])
      decreases |input| - at
    {
      var room := BUFSIZE - |buf| - 1;
      var left := |input| - at;
      var most := if room < left then room else left;
      if most == 0 {
        break;
      }
      var n := 1 + sizes(k) % most;
      k := k + 1;
      SelectedOn(re, input[..at], input[at..at + n]);
      assert input[..at] + input[at..at + n] == input[..at + n];
      buf := buf + input[at..at + n];
      at := at + n;
      pos := at;
      var lines, p := Lines(re, buf);
      out := out + lines;
      buf := buf[p..];
    }
  }

  lemma NothingYet(re: string, input: string)
    ensures Selected(re, input[..0]) == "" && Tail(input[..0]) == ""
  {
  }
}

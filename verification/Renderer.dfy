/** The plain-text fallback for HTML mail: strip tags, decode entities, normalise whitespace. */
module Renderer {
  import opened Wrappers

  // ---------------------------------------------------------------------------------------
  // Tags
  // ---------------------------------------------------------------------------------------

  function IndexOf(s: string, c: char): (i: Option<nat>)
    ensures i.Some? ==> i.value < |s| && s[i.value] == c && c !in s[..i.value]
    ensures i.None? ==> c !in s
  {
    if s == "" then None
    else if s[0] == c then Some(0)
    else
      var rest := IndexOf(s[1..], c);
      if rest.None? then None
      else
        assert s[..rest.value + 1] == [s[0]] + s[1..][..rest.value];
        Some(rest.value + 1)
  }

  /** Every match of `<[^>]*>`, leftmost first, becomes a blank. */
  function StripTags(s: string): string {
    if s == "" then ""
    else if s[0] != '<' then [s[0]] + StripTags(s[1..])
    else
      var close := IndexOf(s, '>');
      if close.None? then s else " " + StripTags(s[close.value + 1..])
  }

  /** Nowhere is a `<` followed by a `>`. */
  ghost predicate NoTag(s: string) {
    forall i, j :: 0 <= i < j < |s| ==> !(s[i] == '<' && s[j] == '>')
  }

  lemma {:induction false} StrippedHasNoTag(s: string)
    ensures NoTag(StripTags(s))
    decreases |s|
  {
    if s != "" {
      if s[0] != '<' {
        StrippedHasNoTag(s[1..]);
      } else if IndexOf(s, '>').Some? {
        StrippedHasNoTag(s[IndexOf(s, '>').value + 1..]);
      }
    }
  }

  // ---------------------------------------------------------------------------------------
  // Entities
  // ---------------------------------------------------------------------------------------

  /** The entity at the head of the text: its length, and the character it stands for. */
  function Entity(s: string): Option<(nat, char)> {
    if "&nbsp;" <= s then Some((6, ' '))
    else if "&amp;" <= s then Some((5, '&'))
    else if "&lt;" <= s then Some((4, '<'))
    else if "&gt;" <= s then Some((4, '>'))
    else if "&quot;" <= s then Some((6, '"'))
    else if "&#39;" <= s then Some((5, '\''))
    else None
  }

  /** One pass from left to right; what an entity decodes to is not looked at again. */
  function Decode(s: string): string {
    if s == "" then ""
    else
      var e := Entity(s);
      if e.Some? then [e.value.1] + Decode(s[e.value.0..]) else [s[0]] + Decode(s[1..])
  }

  // ---------------------------------------------------------------------------------------
  // Whitespace
  // ---------------------------------------------------------------------------------------

  predicate Blank(c: char) { c == ' ' || c == '\t' || c == '\r' || c == '\U{C}' || c == '\U{B}' }

  predicate Space(c: char) { Blank(c) || c == '\n' }

  /** Every run of blanks becomes one space. */
  function CollapseBlanks(s: string): string {
    if s == "" then ""
    else if !Blank(s[0]) then [s[0]] + CollapseBlanks(s[1..])
    else if |s| > 1 && Blank(s[1]) then CollapseBlanks(s[1..])
    else " " + CollapseBlanks(s[1..])
  }

  predicate ThreeLines(s: string) { |s| >= 3 && s[0] == '\n' && s[1] == '\n' && s[2] == '\n' }

  /** Every run of three or more newlines becomes two. */
  function CollapseLines(s: string): string {
    if s == "" then "" else if ThreeLines(s) then CollapseLines(s[1..]) else [s[0]] + CollapseLines(s[1..])
  }

  function TrimLeft(s: string): string { if s == "" || !Space(s[0]) then s else TrimLeft(s[1..]) }

  function TrimRight(s: string): string { if s == "" || !Space(s[|s| - 1]) then s else TrimRight(s[..|s| - 1]) }

  function TrimSpace(s: string): string { TrimRight(TrimLeft(s)) }

  function Normalise(s: string): string { TrimSpace(CollapseLines(CollapseBlanks(s))) }

  function HtmlToText(html: string): string { Normalise(Decode(StripTags(html))) }

  // ---------------------------------------------------------------------------------------
  // The normal form
  // ---------------------------------------------------------------------------------------

  /** No tab, carriage return, form feed or vertical tab, and no two adjacent spaces. */
  ghost predicate SingleBlanks(s: string) {
    && (forall i :: 0 <= i < |s| ==> s[i] !in {'\t', '\r', '\U{C}', '\U{B}'})
    && (forall i :: 0 <= i < |s| - 1 ==> !(s[i] == ' ' && s[i + 1] == ' '))
  }

  ghost predicate FewLines(s: string) {
    forall i :: 0 <= i < |s| - 2 ==> !(s[i] == '\n' && s[i + 1] == '\n' && s[i + 2] == '\n')
  }

  ghost predicate NoOuterSpace(s: string) {
    s != "" ==> s[0] !in {' ', '\n'} && s[|s| - 1] !in {' ', '\n'}
  }

  ghost predicate NormalForm(s: string) { SingleBlanks(s) && FewLines(s) && NoOuterSpace(s) }

  lemma {:induction false} CollapsedBlanks(s: string)
    ensures SingleBlanks(CollapseBlanks(s))
    ensures s != "" ==> CollapseBlanks(s) != "" && Blank(CollapseBlanks(s)[0]) == Blank(s[0])
    decreases |s|
  {
    if s != "" {
      CollapsedBlanks(s[1..]);
      var rest := CollapseBlanks(s[1..]);
      if !(Blank(s[0]) && |s| > 1 && Blank(s[1])) { PrependBlankless(if Blank(s[0]) then ' ' else s[0], rest); }
    }
  }

  lemma PrependBlankless(c: char, rest: string)
    requires SingleBlanks(rest) && (Blank(c) ==> c == ' ' && (rest == "" || !Blank(rest[0])))
    ensures SingleBlanks([c] + rest)
  {
    var s := [c] + rest;
    forall i | 0 <= i < |s| - 1 ensures !(s[i] == ' ' && s[i + 1] == ' ') {
      if i > 0 { assert s[i] == rest[i - 1] && s[i + 1] == rest[i]; }
    }
  }

  /** Collapsing newlines leaves the first two characters alone and no three newlines. */
  lemma {:induction false} CollapsedLines(s: string)
    ensures FewLines(CollapseLines(s))
    ensures SingleBlanks(s) ==> SingleBlanks(CollapseLines(s))
    ensures |s| >= 1 ==> |CollapseLines(s)| >= 1 && CollapseLines(s)[0] == s[0]
    ensures |s| >= 2 ==> |CollapseLines(s)| >= 2 && CollapseLines(s)[1] == s[1]
    ensures |CollapseLines(s)| <= |s|
    ensures !ThreeLines(s) && |CollapseLines(s)| >= 3 ==> !ThreeLines(CollapseLines(s))
    decreases |s|
  {
    if s != "" {
      var tail := s[1..];
      var rest := CollapseLines(tail);
      CollapsedLines(tail);
      if SingleBlanks(s) { TailSingle(s); }
      if !ThreeLines(s) {
        if SingleBlanks(s) { PrependBlankless(s[0], rest); }
        PrependLine(s[0], rest);
      }
    }
  }

  lemma TailSingle(s: string)
    requires SingleBlanks(s) && s != ""
    ensures SingleBlanks(s[1..])
    ensures Blank(s[0]) ==> s[0] == ' ' && (|s| > 1 ==> !Blank(s[1]))
  {
    var tail := s[1..];
    forall i | 0 <= i < |tail| - 1 ensures !(tail[i] == ' ' && tail[i + 1] == ' ') {
      assert tail[i] == s[i + 1] && tail[i + 1] == s[i + 2];
    }
  }

  lemma PrependLine(c: char, rest: string)
    requires FewLines(rest) && !ThreeLines([c] + rest)
    ensures FewLines([c] + rest)
  {
    var s := [c] + rest;
    forall i | 0 <= i < |s| - 2 ensures !(s[i] == '\n' && s[i + 1] == '\n' && s[i + 2] == '\n') {
      if i > 0 { assert s[i] == rest[i - 1] && s[i + 1] == rest[i] && s[i + 2] == rest[i + 1]; }
    }
  }

  /** Trimming cuts a piece out of the text, and what is left has no space at either end. */
  lemma {:induction false} Trimmed(s: string) returns (from: nat, to: nat)
    ensures from <= to <= |s| && TrimSpace(s) == s[from..to] && NoOuterSpace(TrimSpace(s))
  {
    from := LeftTrimmed(s);
    var left := s[from..];
    var length := RightTrimmed(left);
    to := from + length;
    assert left[..length] == s[from..to];
  }

  lemma {:induction false} LeftTrimmed(s: string) returns (from: nat)
    ensures from <= |s| && TrimLeft(s) == s[from..] && (TrimLeft(s) == "" || !Space(TrimLeft(s)[0]))
    decreases |s|
  {
    if s == "" || !Space(s[0]) {
      from := 0;
    } else {
      var k := LeftTrimmed(s[1..]);
      from := k + 1;
      assert s[1..][k..] == s[from..];
    }
  }

  lemma {:induction false} RightTrimmed(s: string) returns (to: nat)
    ensures to <= |s| && TrimRight(s) == s[..to] && (TrimRight(s) == "" || !Space(TrimRight(s)[to - 1]))
    decreases |s|
  {
    if s == "" || !Space(s[|s| - 1]) {
      to := |s|;
      assert s[..to] == s;
    } else {
      to := RightTrimmed(s[..|s| - 1]);
      assert s[..|s| - 1][..to] == s[..to];
    }
  }

  lemma SliceKeeps(s: string, from: nat, to: nat)
    requires from <= to <= |s| && SingleBlanks(s) && FewLines(s)
    ensures SingleBlanks(s[from..to]) && FewLines(s[from..to])
  {
    var t := s[from..to];
    forall i | 0 <= i < |t| - 1 ensures !(t[i] == ' ' && t[i + 1] == ' ') {
      assert t[i] == s[from + i] && t[i + 1] == s[from + i + 1];
    }
    forall i | 0 <= i < |t| - 2 ensures !(t[i] == '\n' && t[i + 1] == '\n' && t[i + 2] == '\n') {
      assert t[i] == s[from + i] && t[i + 1] == s[from + i + 1] && t[i + 2] == s[from + i + 2];
    }
  }

  /** Whatever the input, the text comes out in normal form. */
  lemma NormalisedIsNormal(s: string)
    ensures NormalForm(Normalise(s))
  {
    CollapsedBlanks(s);
    CollapsedLines(CollapseBlanks(s));
    var from, to := Trimmed(CollapseLines(CollapseBlanks(s)));
    SliceKeeps(CollapseLines(CollapseBlanks(s)), from, to);
  }

  lemma {:induction false} KeepsSingleBlanks(s: string)
    requires SingleBlanks(s)
    ensures CollapseBlanks(s) == s
    decreases |s|
  {
    if s != "" {
      TailSingle(s);
      KeepsSingleBlanks(s[1..]);
    }
  }

  lemma FewAtHead(s: string)
    requires FewLines(s)
    ensures !ThreeLines(s)
  {
    if |s| >= 3 {
      var i := 0;
      assert !(s[i] == '\n' && s[i + 1] == '\n' && s[i + 2] == '\n');
    }
  }

  lemma {:induction false} KeepsFewLines(s: string)
    requires FewLines(s)
    ensures CollapseLines(s) == s
    decreases |s|
  {
    if s != "" {
      var tail := s[1..];
      forall i | 0 <= i < |tail| - 2 ensures !(tail[i] == '\n' && tail[i + 1] == '\n' && tail[i + 2] == '\n') {
        assert tail[i] == s[i + 1] && tail[i + 1] == s[i + 2] && tail[i + 2] == s[i + 3];
      }
      FewAtHead(s);
      KeepsFewLines(tail);
    }
  }

  /** The texts that normalisation leaves alone are exactly those in normal form. */
  lemma FixedExactlyIfNormal(s: string)
    ensures Normalise(s) == s <==> NormalForm(s)
  {
    NormalisedIsNormal(s);
    if NormalForm(s) {
      KeepsSingleBlanks(s);
      KeepsFewLines(s);
    }
  }

  // ---------------------------------------------------------------------------------------
  // What whitespace becomes, run by run, and what stays
  // ---------------------------------------------------------------------------------------

  /** The characters that are not white space, in order. */
  function Ink(s: string): string {
    if s == "" then "" else (if s[0] in " \t\r\U{C}\U{B}\n" then "" else [s[0]]) + Ink(s[1..])
  }

  lemma SpaceChars(c: char)
    ensures Blank(c) <==> c in " \t\r\U{C}\U{B}"
    ensures Space(c) <==> c in " \t\r\U{C}\U{B}\n"
  {
    var blanks, spaces := " \t\r\U{C}\U{B}", " \t\r\U{C}\U{B}\n";
    assert blanks[0] == ' ' && blanks[1] == '\t' && blanks[2] == '\r' && blanks[3] == '\U{C}' && blanks[4] == '\U{B}';
    assert spaces == blanks + "\n";
    assert spaces[0] == ' ' && spaces[1] == '\t' && spaces[2] == '\r' && spaces[3] == '\U{C}' && spaces[4] == '\U{B}';
    assert spaces[5] == '\n';
  }

  lemma {:induction false} InkJoin(a: string, b: string)
    ensures Ink(a + b) == Ink(a) + Ink(b)
    decreases |a|
  {
    if a == "" {
      assert a + b == b;
    } else {
      assert (a + b)[1..] == a[1..] + b;
      InkJoin(a[1..], b);
    }
  }

  lemma {:induction false} InkOfBlanks(s: string)
    ensures Ink(CollapseBlanks(s)) == Ink(s)
    decreases |s|
  {
    if s != "" {
      SpaceChars(s[0]);
      SpaceChars(' ');
      InkOfBlanks(s[1..]);
      InkJoin([if Blank(s[0]) then ' ' else s[0]], CollapseBlanks(s[1..]));
    }
  }

  lemma {:induction false} InkOfLines(s: string)
    ensures Ink(CollapseLines(s)) == Ink(s)
    decreases |s|
  {
    if s != "" {
      SpaceChars(s[0]);
      InkOfLines(s[1..]);
      InkJoin([s[0]], CollapseLines(s[1..]));
    }
  }

  lemma {:induction false} InkOfLeft(s: string)
    ensures Ink(TrimLeft(s)) == Ink(s)
    decreases |s|
  {
    if s != "" && Space(s[0]) {
      SpaceChars(s[0]);
      InkOfLeft(s[1..]);
    }
  }

  lemma {:induction false} InkOfRight(s: string)
    ensures Ink(TrimRight(s)) == Ink(s)
    decreases |s|
  {
    if s != "" && Space(s[|s| - 1]) {
      var front, last := s[..|s| - 1], [s[|s| - 1]];
      SpaceChars(last[0]);
      InkOfRight(front);
      InkJoin(front, last);
      assert front + last == s && last[1..] == "";
    }
  }

  /** Normalisation loses, adds and reorders nothing but white space. */
  lemma NormaliseKeepsInk(s: string)
    ensures Ink(Normalise(s)) == Ink(s)
  {
    InkOfBlanks(s);
    InkOfLines(CollapseBlanks(s));
    InkOfLeft(CollapseLines(CollapseBlanks(s)));
    InkOfRight(TrimLeft(CollapseLines(CollapseBlanks(s))));
  }

  ghost predicate AllSpace(s: string) { forall i :: 0 <= i < |s| ==> Space(s[i]) }

  ghost predicate AllBlank(s: string) { forall i :: 0 <= i < |s| ==> Blank(s[i]) }

  /** One run of blanks becomes one space, whatever surrounds it. */
  lemma {:induction false} BlankRun(before: string, blanks: string, after: string)
    requires blanks != "" && AllBlank(blanks)
    requires before != "" ==> !Blank(before[|before| - 1])
    requires after != "" ==> !Blank(after[0])
    ensures CollapseBlanks(before + blanks + after) == CollapseBlanks(before) + " " + CollapseBlanks(after)
    decreases |before| + |blanks|
  {
    var s := before + blanks + after;
    if before != "" {
      assert s[1..] == before[1..] + blanks + after;
      BlankRun(before[1..], blanks, after);
    } else if |blanks| > 1 {
      assert s[1..] == "" + blanks[1..] + after;
      BlankRun("", blanks[1..], after);
    } else {
      assert s[1..] == after;
    }
  }

  function Newlines(n: nat): (s: string)
    ensures |s| == n && forall i :: 0 <= i < n ==> s[i] == '\n'
  {
    if n == 0 then "" else "\n" + Newlines(n - 1)
  }

  lemma {:induction false} LineRunFirst(n: nat, after: string)
    requires n > 0 && (after != "" ==> after[0] != '\n')
    ensures CollapseLines(Newlines(n) + after) == Newlines(if n > 2 then 2 else n) + CollapseLines(after)
    decreases n
  {
    var s := Newlines(n) + after;
    assert s[1..] == Newlines(n - 1) + after;
    assert ThreeLines(s) <==> n > 2;
    if n > 1 { LineRunFirst(n - 1, after); } else { assert s[1..] == after; }
    assert Newlines(2) == "\n" + Newlines(1) && Newlines(1) == "\n" + Newlines(0);
  }

  /** Text that does not end in a newline is collapsed on its own. */
  lemma {:induction false} LinesJoin(before: string, rest: string)
    requires before != "" ==> before[|before| - 1] != '\n'
    ensures CollapseLines(before + rest) == CollapseLines(before) + CollapseLines(rest)
    decreases |before|
  {
    if before == "" {
      assert before + rest == rest;
    } else {
      assert (before + rest)[1..] == before[1..] + rest;
      LinesAhead(before, rest);
      LinesJoin(before[1..], rest);
    }
  }

  /** One run of newlines is cut to two, whatever surrounds it. */
  lemma LineRun(before: string, n: nat, after: string)
    requires n > 0
    requires before != "" ==> before[|before| - 1] != '\n'
    requires after != "" ==> after[0] != '\n'
    ensures CollapseLines(before + Newlines(n) + after)
         == CollapseLines(before) + Newlines(if n > 2 then 2 else n) + CollapseLines(after)
  {
    hide CollapseLines, Newlines;
    assert before + Newlines(n) + after == before + (Newlines(n) + after);
    LinesJoin(before, Newlines(n) + after);
    LineRunFirst(n, after);
  }

  lemma LinesAhead(before: string, rest: string)
    requires before != "" && before[|before| - 1] != '\n'
    ensures ThreeLines(before + rest) <==> ThreeLines(before)
  {
    var s := before + rest;
    if |before| < 3 { assert s[|before| - 1] == before[|before| - 1]; }
  }

  /** Trimming removes the outer white space and nothing else. */
  lemma {:induction false} TrimsOuterSpace(left: string, s: string, right: string)
    requires AllSpace(left) && AllSpace(right)
    requires s != "" && !Space(s[0]) && !Space(s[|s| - 1])
    ensures TrimSpace(left + s + right) == s
    decreases |left| + |right|
  {
    var t := left + s + right;
    if left != "" {
      assert t[1..] == left[1..] + s + right;
      TrimsOuterSpace(left[1..], s, right);
    } else if right != "" {
      assert t[..|t| - 1] == "" + s + right[..|right| - 1];
      TrimsOuterSpace("", s, right[..|right| - 1]);
      assert t[0] == s[0] && t[..|t| - 1][0] == s[0];
    } else {
      assert t == s;
    }
  }

  /** Text without a tag, and text without an ampersand, comes through as it is. */
  lemma {:induction false} NothingToStrip(s: string)
    ensures NoTag(s) ==> StripTags(s) == s
    ensures '&' !in s ==> Decode(s) == s
    decreases |s|
  {
    if s != "" {
      var tail := s[1..];
      NothingToStrip(tail);
      if NoTag(s) {
        forall i, j | 0 <= i < j < |tail| ensures !(tail[i] == '<' && tail[j] == '>') {
          assert tail[i] == s[i + 1] && tail[j] == s[j + 1];
        }
        if s[0] == '<' && IndexOf(s, '>').Some? {
          assert false;
        }
      }
      if '&' !in s { NoEntity(s); }
    }
  }

  // ---------------------------------------------------------------------------------------
  // Round trip
  // ---------------------------------------------------------------------------------------

  function EscapeChar(c: char): string {
    if c == '&' then "&amp;" else if c == '<' then "&lt;" else if c == '>' then "&gt;"
    else if c == '"' then "&quot;" else if c == '\'' then "&#39;" else [c]
  }

  function Escape(t: string): string { if t == "" then "" else EscapeChar(t[0]) + Escape(t[1..]) }

  /** An HTML document: text, escaped in its source, non-breaking spaces, and tags, which may hold
      anything but `>`. */
  datatype Piece = Words(text: string) | NonBreaking | Tag(inside: string)

  ghost predicate WellFormed(doc: seq<Piece>) {
    forall p :: p in doc && p.Tag? ==> '>' !in p.inside
  }

  function SourceOf(p: Piece): string {
    match p
    case Words(text) => Escape(text)
    case NonBreaking => "&nbsp;"
    case Tag(inside) => "<" + inside + ">"
  }

  function Source(doc: seq<Piece>): string { if doc == [] then "" else SourceOf(doc[0]) + Source(doc[1..]) }

  /** What a reader should get: the text, with a blank for every tag. */
  function Plain(doc: seq<Piece>): string {
    if doc == [] then "" else (if doc[0].Words? then doc[0].text else " ") + Plain(doc[1..])
  }

  /** The source with its tags blanked. */
  function Tagless(doc: seq<Piece>): string {
    if doc == [] then "" else (if doc[0].Tag? then " " else SourceOf(doc[0])) + Tagless(doc[1..])
  }

  /** The second character tells which entity it can be. */
  lemma EntityByLetter(s: string)
    requires |s| >= 2 && s[0] == '&'
    ensures s[1] == 'a' ==> Entity(s) == if "&amp;" <= s then Some((5, '&')) else None
    ensures s[1] == 'l' ==> Entity(s) == if "&lt;" <= s then Some((4, '<')) else None
    ensures s[1] == 'g' ==> Entity(s) == if "&gt;" <= s then Some((4, '>')) else None
    ensures s[1] == 'q' ==> Entity(s) == if "&quot;" <= s then Some((6, '"')) else None
    ensures s[1] == '#' ==> Entity(s) == if "&#39;" <= s then Some((5, '\'')) else None
  {
    assert "&nbsp;"[1] == 'n' && "&amp;"[1] == 'a' && "&lt;"[1] == 'l' && "&gt;"[1] == 'g' && "&quot;"[1] == 'q'
        && "&#39;"[1] == '#';
    assert "&nbsp;" <= s ==> s[1] == 'n';
    assert "&amp;" <= s ==> s[1] == 'a';
    assert "&lt;" <= s ==> s[1] == 'l';
    assert "&gt;" <= s ==> s[1] == 'g';
    assert "&quot;" <= s ==> s[1] == 'q';
  }

  lemma NoEntity(s: string)
    requires s != "" && s[0] != '&'
    ensures Entity(s) == None
  {
    assert "&nbsp;"[0] == '&' && "&amp;"[0] == '&' && "&lt;"[0] == '&' && "&gt;"[0] == '&' && "&quot;"[0] == '&'
        && "&#39;"[0] == '&';
  }

  lemma EscapedEntity(c: char, rest: string)
    ensures Entity(EscapeChar(c) + rest) == if EscapeChar(c) == [c] then None else Some((|EscapeChar(c)|, c))
    ensures c == '&' ==> EscapeChar(c) != [c]
  {
    var e := EscapeChar(c);
    var s := e + rest;
    assert e <= s;
    if e == [c] {
      assert |"&amp;"| == 5;
      NoEntity(s);
    } else {
      assert s[0] == e[0] && s[1] == e[1];
      EntityByLetter(s);
    }
  }

  lemma DecodeHead(c: char, rest: string)
    ensures Decode(EscapeChar(c) + rest) == [c] + Decode(rest)
  {
    hide EscapeChar, Entity;
    EscapedEntity(c, rest);
    var s := EscapeChar(c) + rest;
    assert s[|EscapeChar(c)|..] == rest;
    EscapeNotEmpty(c);
  }

  lemma EscapeNotEmpty(c: char)
    ensures EscapeChar(c) != ""
  {
  }

  lemma {:induction false} DecodeText(t: string, rest: string)
    ensures Decode(Escape(t) + rest) == t + Decode(rest)
    decreases |t|
  {
    hide Entity, EscapeChar, Decode;
    if t == "" {
      assert Escape(t) + rest == rest;
    } else {
      var tail := Escape(t[1..]) + rest;
      assert Escape(t) + rest == EscapeChar(t[0]) + tail;
      DecodeHead(t[0], tail);
      DecodeText(t[1..], rest);
    }
  }

  lemma DecodeNonBreaking(rest: string)
    ensures Decode("&nbsp;" + rest) == " " + Decode(rest)
  {
    var s := "&nbsp;" + rest;
    assert "&nbsp;" <= s;
    assert s[6..] == rest;
  }

  lemma DecodeBlank(rest: string)
    ensures Decode(" " + rest) == " " + Decode(rest)
  {
    NoEntity(" " + rest);
    assert (" " + rest)[1..] == rest;
  }

  lemma {:induction false} DecodeTagless(doc: seq<Piece>)
    ensures Decode(Tagless(doc)) == Plain(doc)
    decreases |doc|
  {
    if doc != [] {
      var rest := Tagless(doc[1..]);
      DecodeTagless(doc[1..]);
      match doc[0] {
        case Words(text) => DecodeText(text, rest);
        case NonBreaking => DecodeNonBreaking(rest);
        case Tag(_) => DecodeBlank(rest);
      }
    }
  }

  lemma {:induction false} StripText(plain: string, rest: string)
    requires '<' !in plain
    ensures StripTags(plain + rest) == plain + StripTags(rest)
    decreases |plain|
  {
    if plain == "" {
      assert plain + rest == rest;
    } else {
      assert (plain + rest)[1..] == plain[1..] + rest;
      StripText(plain[1..], rest);
    }
  }

  lemma {:induction false} EscapedHasNoTag(t: string)
    ensures '<' !in Escape(t)
    decreases |t|
  {
    if t != "" { EscapedHasNoTag(t[1..]); }
  }

  lemma StripTag(inside: string, rest: string)
    requires '>' !in inside
    ensures StripTags("<" + inside + ">" + rest) == " " + StripTags(rest)
  {
    var s := "<" + inside + ">" + rest;
    var n := |inside| + 1;
    assert s[n] == '>' && s[n + 1..] == rest;
    forall i | 0 <= i < n ensures s[i] != '>' {
      if i > 0 { assert s[i] == inside[i - 1]; }
    }
    FirstIndex(s, '>', n);
  }

  lemma {:induction false} FirstIndex(s: string, c: char, n: nat)
    requires n < |s| && s[n] == c && forall i :: 0 <= i < n ==> s[i] != c
    ensures IndexOf(s, c) == Some(n)
    decreases n
  {
    if n > 0 { FirstIndex(s[1..], c, n - 1); }
  }

  lemma {:induction false} StripSource(doc: seq<Piece>)
    requires WellFormed(doc)
    ensures StripTags(Source(doc)) == Tagless(doc)
    decreases |doc|
  {
    if doc != [] {
      var rest := doc[1..];
      StripSource(rest);
      match doc[0] {
        case Words(text) =>
          EscapedHasNoTag(text);
          StripText(Escape(text), Source(rest));
        case NonBreaking =>
          StripText("&nbsp;", Source(rest));
        case Tag(inside) =>
          assert doc[0] in doc;
          StripTag(inside, Source(rest));
          assert "<" + inside + ">" + Source(rest) == ("<" + inside + ">") + Source(rest);
      }
    }
  }

  /** Main result: of any document the fallback yields exactly the text, with a blank for every
      tag, whitespace-normalised. In particular text that looks like an entity or a tag once
      decoded comes through as it is. */
  lemma DocumentRoundTrip(doc: seq<Piece>)
    requires WellFormed(doc)
    ensures HtmlToText(Source(doc)) == Normalise(Plain(doc))
    ensures Ink(HtmlToText(Source(doc))) == Ink(Plain(doc))
  {
    StripSource(doc);
    DecodeTagless(doc);
    NormaliseKeepsInk(Plain(doc));
  }

  lemma EmptyText()
    ensures StripTags("") == "" && Decode("") == ""
  {
  }

  /** Escaped text alone. */
  lemma TextRoundTrip(t: string)
    ensures HtmlToText(Escape(t)) == Normalise(t)
    ensures NormalForm(t) ==> HtmlToText(Escape(t)) == t
  {
    hide Entity, EscapeChar, Escape, Decode, StripTags, Normalise, NormalForm;
    EscapedHasNoTag(t);
    StripText(Escape(t), "");
    DecodeText(t, "");
    EmptyText();
    assert Escape(t) + "" == Escape(t) && t + "" == t;
    FixedExactlyIfNormal(t);
  }

  // ---------------------------------------------------------------------------------------
  // Render
  // ---------------------------------------------------------------------------------------

  datatype Payload = Payload(subject: string, html: string, text: string)

  datatype Rendered = Rendered(subject: string, html: string, text: string)

  function Render(p: Payload): Result<Rendered, string> {
    if p.html == "" && p.text == "" then Err("renderer: payload has no html or text body")
    else Ok(Rendered(TrimSpace(p.subject), p.html, if p.text == "" then HtmlToText(p.html) else p.text))
  }

  /** Rendering fails for exactly the payloads that validation refuses for their body, so a handler
      never gets to see it fail. A given text goes out untouched; a generated one is in normal
      form. */
  lemma RenderFailsOnlyUnvalidated(p: Payload)
    ensures Render(p).Err? <==> p.html == "" && p.text == ""
    ensures p.text != "" ==> Render(p).Ok? && Render(p).value.text == p.text
    ensures p.text == "" && p.html != "" ==>
              NormalForm(Render(p).value.text) && Render(p).value.text == HtmlToText(p.html)
    ensures Render(p).Ok? ==>
              && Render(p).value.html == p.html
              && Ink(Render(p).value.subject) == Ink(p.subject) && NoOuterSpace(Render(p).value.subject)
  {
    InkOfLeft(p.subject);
    InkOfRight(TrimLeft(p.subject));
    var _, _ := Trimmed(p.subject);
    NormalisedIsNormal(Decode(StripTags(p.html)));
  }
}

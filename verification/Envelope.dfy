/** `stripOpenClawEnvelope` of the shared plugin code: a greedy last-marker parser. */
module Envelope {
  import opened Basics
  import opened Whitespace
  import opened Messages

  const PREFIX := "Sender (untrusted metadata):"

  /** What `\s` and `trim` take for white space. */
  predicate JsSpace(c: char) {
    var n := c as int;
    9 <= n <= 13 || n in {32, 0xA0, 0x1680, 0x2028, 0x2029, 0x202F, 0x205F, 0x3000, 0xFEFF} || 0x2000 <= n <= 0x200A
  }

  function TrimJs(s: string): string { Trim(s, JsSpace) }

  /** One way to match `^[\s\S]*\n\[[^\]]+\]\s+([\s\S]+)$`: where the newline, the closing bracket and the group are. */
  datatype Match = Match(newline: nat, close: nat, group: nat)

  ghost predicate IsMatch(s: string, m: Match) {
    && m.newline + 2 < m.close && m.close + 1 < m.group < |s|
    && s[m.newline] == '\n' && s[m.newline + 1] == '[' && s[m.close] == ']'
    && (forall i :: m.newline + 2 <= i < m.close ==> s[i] != ']')
    && Blank(s[m.close + 1..m.group], JsSpace)
  }

  /** The matcher's preference: a longer preamble first, then a longer marker, then more white space. */
  predicate AtLeast(a: Match, b: Match) {
    a.newline > b.newline
    || (a.newline == b.newline && (a.close > b.close || (a.close == b.close && a.group >= b.group)))
  }

  // ----- the matcher -----

  /** The first `]` at or after `i`. */
  function Close(s: string, i: nat): (r: Option<nat>)
    ensures r.None? ==> forall k :: i <= k < |s| ==> s[k] != ']'
    ensures r.Some? ==> i <= r.value < |s| && s[r.value] == ']' && forall k :: i <= k < r.value ==> s[k] != ']'
    decreases |s| - i
  {
    if i >= |s| then None else if s[i] == ']' then Some(i) else Close(s, i + 1)
  }

  /** The end of the white space from `i`, leaving at least the last character. */
  function SkipSpace(s: string, i: nat): (r: nat)
    requires i < |s|
    ensures i <= r < |s|
    ensures forall k :: i <= k < r ==> JsSpace(s[k])
    ensures r < |s| - 1 ==> !JsSpace(s[r])
    decreases |s| - i
  {
    if i < |s| - 1 && JsSpace(s[i]) then SkipSpace(s, i + 1) else i
  }

  function MatchAt(s: string, p: nat): (r: Option<Match>)
    ensures r.Some? ==> r.value.newline == p && IsMatch(s, r.value)
    ensures forall m :: IsMatch(s, m) && m.newline == p ==> r.Some? && AtLeast(r.value, m)
  {
    if p + 3 < |s| && s[p] == '\n' && s[p + 1] == '[' then
      var close := Close(s, p + 2);
      if close.Some? && close.value > p + 2 && close.value + 2 < |s| && JsSpace(s[close.value + 1]) then
        var group := SkipSpace(s, close.value + 1);
        assert forall m :: IsMatch(s, m) && m.newline == p ==> m.close == close.value && m.group <= group by {
          forall m | IsMatch(s, m) && m.newline == p ensures m.close == close.value && m.group <= group {
            GroupBound(s, m, group);
          }
        }
        Some(Match(p, close.value, group))
      else
        assert forall m :: IsMatch(s, m) && m.newline == p ==> s[m.close + 1..m.group][0] == s[m.close + 1];
        None
    else None
  }

  lemma GroupBound(s: string, m: Match, group: nat)
    requires IsMatch(s, m) && m.close + 1 <= group < |s|
    requires group < |s| - 1 ==> !JsSpace(s[group])
    ensures m.group <= group
  {
    forall i | m.close + 1 <= i < m.group ensures JsSpace(s[i]) {
      assert s[m.close + 1..m.group][i - m.close - 1] == s[i];
    }
  }

  /** The preferred match with the newline before `p`. */
  function FindBelow(s: string, p: nat): (r: Option<Match>)
    requires p <= |s|
    ensures r.Some? ==> IsMatch(s, r.value) && r.value.newline < p
    ensures forall m :: IsMatch(s, m) && m.newline < p ==> r.Some? && AtLeast(r.value, m)
  {
    if p == 0 then None
    else if MatchAt(s, p - 1).Some? then MatchAt(s, p - 1) else FindBelow(s, p - 1)
  }

  function StripEnvelope(prompt: string): string {
    if prompt == "" then ""
    else if !(PREFIX <= prompt) then TrimJs(prompt)
    else
      match FindBelow(prompt, |prompt|)
      case Some(m) => TrimJs(prompt[m.group..])
      case None => TrimJs(prompt)
  }

  // ----- the printer and the round trip -----

  function Header(metadata: string, marker: string): string {
    PREFIX + metadata + "\n[" + marker + "] "
  }

  function Wrap(metadata: string, marker: string, text: string): string {
    Header(metadata, marker) + text
  }

  ghost predicate HasMarker(text: string) {
    exists m :: IsMatch(text, m)
  }

  function Shift(m: Match, n: nat): Match {
    Match(m.newline + n, m.close + n, m.group + n)
  }

  lemma ShiftMatch(head: string, text: string, m: Match)
    ensures IsMatch(text, m) <==> IsMatch(head + text, Shift(m, |head|))
  {
    var s, n := head + text, Shift(m, |head|);
    assert forall i :: 0 <= i < |text| ==> s[|head| + i] == text[i];
    if m.newline + 2 < m.close && m.close + 1 < m.group < |text| {
      assert s[n.close + 1..n.group] == text[m.close + 1..m.group];
      assert (forall i :: m.newline + 2 <= i < m.close ==> text[i] != ']') <==>
             (forall i :: n.newline + 2 <= i < n.close ==> s[i] != ']') by {
        assert forall i :: n.newline + 2 <= i < n.close ==> s[i] == text[i - |head|];
      }
    }
  }

  lemma HeaderMatch(metadata: string, marker: string, text: string) returns (m: Match)
    requires marker != "" && ']' !in marker && text != ""
    ensures IsMatch(Wrap(metadata, marker, text), m)
    ensures m.newline == |PREFIX + metadata| && m.close == m.newline + 2 + |marker|
    ensures |Header(metadata, marker)| == m.close + 2
  {
    var s, head := Wrap(metadata, marker, text), Header(metadata, marker);
    var p := |PREFIX + metadata|;
    m := Match(p, p + 2 + |marker|, p + 4 + |marker|);
    assert head[p..] == "\n[" + marker + "] ";
    assert forall i :: 0 <= i < |head| ==> s[i] == head[i];
    assert forall i :: 0 <= i < |head| - p ==> head[p + i] == ("\n[" + marker + "] ")[i];
    assert s[m.close + 1..m.group] == " ";
  }

  /** A match whose newline lies in the header closes at the header's bracket. */
  lemma HeaderClose(metadata: string, marker: string, text: string, m: Match)
    requires marker != "" && ']' !in marker && text != ""
    requires IsMatch(Wrap(metadata, marker, text), m)
    requires |PREFIX + metadata| <= m.newline < |Header(metadata, marker)|
    ensures m.close + 2 == |Header(metadata, marker)|
  {
    var s, head := Wrap(metadata, marker, text), Header(metadata, marker);
    var p := |PREFIX + metadata|;
    var h := HeaderMatch(metadata, marker, text);
    assert forall i :: 0 <= i < |head| ==> s[i] == head[i];
    assert head[|head| - 2] == ']' && head[|head| - 1] == ' ';
    assert forall i :: p + 2 <= i < h.close ==> s[i] != ']';
  }

  /** A match inside the text cuts a solid character, its bracket, off the text. */
  lemma InnerMatchCuts(text: string, m: Match)
    requires IsMatch(text, m)
    ensures |TrimJs(text)| > |TrimJs(text[m.group..])|
  {
    assert text == text[..m.group] + text[m.group..];
    assert text[..m.group][m.newline + 1] == '[' && !JsSpace('[');
    TrimSolidPrefix(text[..m.group], text[m.group..], JsSpace);
  }

  lemma LeadingSpaceTrims(text: string, k: nat)
    requires k <= |text| && Blank(text[..k], JsSpace)
    ensures TrimJs(text[k..]) == TrimJs(text)
  {
    assert text == text[..k] + text[k..];
    TrimStartBlank(text[..k], text[k..], JsSpace);
  }

  /** Back from the whole prompt to the text. */
  lemma Unshift(head: string, text: string, m: Match)
    requires IsMatch(head + text, m) && m.newline >= |head|
    ensures m.close >= |head| && m.group >= |head|
    ensures IsMatch(text, Match(m.newline - |head|, m.close - |head|, m.group - |head|))
  {
    ShiftMatch(head, text, Match(m.newline - |head|, m.close - |head|, m.group - |head|));
  }

  lemma WrappedPrefix(metadata: string, marker: string, text: string)
    ensures PREFIX <= Wrap(metadata, marker, text) && Wrap(metadata, marker, text) != ""
  {
    assert Wrap(metadata, marker, text)[..|PREFIX|] == PREFIX;
  }

  lemma StripsAtBest(s: string, t: Match) returns (best: Match)
    requires PREFIX <= s && IsMatch(s, t)
    ensures IsMatch(s, best) && AtLeast(best, t) && StripEnvelope(s) == TrimJs(s[best.group..])
  {
    best := FindBelow(s, |s|).value;
  }

  lemma CleanTextReturns(metadata: string, marker: string, text: string)
    requires marker != "" && ']' !in marker && text != "" && !HasMarker(text)
    ensures StripEnvelope(Wrap(metadata, marker, text)) == TrimJs(text)
  {
    var s, head := Wrap(metadata, marker, text), Header(metadata, marker);
    WrappedPrefix(metadata, marker, text);
    var h := HeaderMatch(metadata, marker, text);
    var best := StripsAtBest(s, h);
    if best.newline >= |head| { Unshift(head, text, best); }
    HeaderClose(metadata, marker, text, best);
    TextAfter(head, text, best);
    LeadingSpaceTrims(text, best.group - |head|);
  }

  /** A match that closes with the header skips only white space of the text. */
  lemma TextAfter(head: string, text: string, best: Match)
    requires IsMatch(head + text, best) && best.close + 2 == |head| <= best.group
    ensures best.group - |head| <= |text|
    ensures forall i :: 0 <= i < best.group - |head| ==> JsSpace(text[i])
    ensures (head + text)[best.group..] == text[best.group - |head|..]
  {
    var s := head + text;
    forall i | 0 <= i < best.group - |head| ensures JsSpace(text[i]) {
      assert s[best.close + 1..best.group][i + 1] == s[|head| + i] == text[i];
    }
  }

  lemma MarkedTextIsCut(metadata: string, marker: string, text: string, t: Match)
    requires marker != "" && ']' !in marker && IsMatch(text, t)
    ensures StripEnvelope(Wrap(metadata, marker, text)) != TrimJs(text)
  {
    var s, head := Wrap(metadata, marker, text), Header(metadata, marker);
    WrappedPrefix(metadata, marker, text);
    ShiftMatch(head, text, t);
    var best := StripsAtBest(s, Shift(t, |head|));
    Unshift(head, text, best);
    CutDiffers(head, text, best);
  }

  lemma CutDiffers(head: string, text: string, best: Match)
    requires best.newline >= |head| && best.close >= |head| && best.group >= |head|
    requires IsMatch(text, Match(best.newline - |head|, best.close - |head|, best.group - |head|))
    ensures TrimJs((head + text)[best.group..]) != TrimJs(text)
  {
    assert (head + text)[best.group..] == text[best.group - |head|..];
    InnerMatchCuts(text, Match(best.newline - |head|, best.close - |head|, best.group - |head|));
  }

  /** Stripping a wrapped text gives back the trimmed text if and only if the text holds no marker
      of its own; a text that does loses everything up to its last marker. */
  lemma RoundTrip(metadata: string, marker: string, text: string)
    requires marker != "" && ']' !in marker && text != ""
    ensures StripEnvelope(Wrap(metadata, marker, text)) == TrimJs(text) <==> !HasMarker(text)
  {
    if t :| IsMatch(text, t) {
      MarkedTextIsCut(metadata, marker, text, t);
    } else {
      CleanTextReturns(metadata, marker, text);
    }
  }

  /** A prompt without the prefix, or with the prefix and no marker, is only trimmed. */
  lemma PlainPromptOnlyTrimmed(prompt: string)
    requires !(PREFIX <= prompt) || !HasMarker(prompt)
    ensures StripEnvelope(prompt) == TrimJs(prompt)
  {
    if prompt == "" { assert TrimJs("") == ""; }
  }

  /** A marker from the newline at `i` to the bracket at `j`: at least one character between the brackets, none of
      them a closing bracket, and then white space and at least one more character. */
  predicate MarkerAt(text: string, i: nat, j: nat) {
    && i + 3 <= j && j + 2 < |text| && text[i] == '\n' && text[i + 1] == '[' && text[j] == ']' && JsSpace(text[j + 1])
    && forall k :: i + 2 <= k < j ==> text[k] != ']'
  }

  lemma MatchIsMarker(text: string, m: Match)
    requires IsMatch(text, m)
    ensures MarkerAt(text, m.newline, m.close)
  {
    assert text[m.close + 1..m.group][0] == text[m.close + 1];
  }

  lemma MarkerMatches(text: string, i: nat, j: nat)
    requires MarkerAt(text, i, j)
    ensures IsMatch(text, Match(i, j, j + 2))
  {
    assert text[j + 1..j + 2] == [text[j + 1]];
  }

  /** What a text must not hold to come back whole, position by position. */
  lemma MarkerExactly(text: string)
    ensures HasMarker(text) <==> exists i, j :: MarkerAt(text, i, j)
  {
    if m :| IsMatch(text, m) { MatchIsMarker(text, m); }
    if i, j :| MarkerAt(text, i, j) { MarkerMatches(text, i, j); }
  }

  /** Python's and JavaScript's white space differ in six characters: four separators and the next-line control
      are Python's only, the byte order mark JavaScript's. */
  lemma SpacesDiffer(c: char)
    ensures JsSpace(c) != PySpace(c) <==> c as int in {0x1C, 0x1D, 0x1E, 0x1F, 0x85, 0xFEFF}
  {
  }
}

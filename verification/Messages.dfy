/** Agent messages as the runtime sees them, and the two token estimates. */
module Messages {
  import opened Basics
  import opened Whitespace

  /** `text` is the plain text of the content, `turn` the `eb_turn` stamp (0 when absent). */
  datatype Message = Message(role: string, text: string, name: Option<string>, meta: map<string, string>, turn: nat)

  function MetaGet(m: Message, key: string): string {
    if key in m.meta then m.meta[key] else ""
  }

  /** What Python's `strip` takes for white space. */
  predicate PySpace(c: char) {
    var n := c as int;
    9 <= n <= 13 || 0x1C <= n <= 0x20 || n in {0x85, 0xA0, 0x1680, 0x2028, 0x2029, 0x202F, 0x205F, 0x3000}
    || 0x2000 <= n <= 0x200A
  }

  function Strip(s: string): string { Trim(s, PySpace) }

  /** The engine's estimate: a token is four characters, and no text is free. */
  function EstimateTokens(text: string): nat {
    if |text| / 4 < 1 then 1 else |text| / 4
  }

  function Tokens(messages: seq<Message>): nat {
    if messages == [] then 0 else EstimateTokens(messages[0].text) + Tokens(messages[1..])
  }

  lemma {:induction false} TokensAppend(a: seq<Message>, b: seq<Message>)
    ensures Tokens(a + b) == Tokens(a) + Tokens(b)
  {
    if a == [] {
      assert a + b == b;
    } else {
      assert (a + b)[1..] == a[1..] + b;
      TokensAppend(a[1..], b);
    }
  }

  /** `sum(estimate_tokens(...) for m in messages)`. */
  method CountTokens(messages: seq<Message>) returns (total: nat)
    ensures total == Tokens(messages)
  {
    total := 0;
    for i := 0 to |messages|
      invariant total == Tokens(messages[..i])
    {
      total := total + EstimateTokens(messages[i].text);
      assert messages[..i + 1] == messages[..i] + [messages[i]];
      TokensAppend(messages[..i], [messages[i]]);
    }
    assert messages[..|messages|] == messages;
  }

  /** `text.split(sep)`. */
  function SplitOn(text: string, sep: char): seq<string> {
    if sep !in text then [text] else var i := FirstAt(text, sep); [text[..i]] + SplitOn(text[i + 1..], sep)
  }

  function FirstAt(text: string, c: char): (i: nat)
    requires c in text
    ensures i < |text| && text[i] == c
  {
    if text[0] == c then 0 else 1 + FirstAt(text[1..], c)
  }

  function StripAll(parts: seq<string>): seq<string> {
    seq(|parts|, i requires 0 <= i < |parts| => Strip(parts[i]))
  }

  /** The non-empty, trimmed pieces of a comma-separated list. */
  function Pieces(list: string): seq<string> {
    Keep(StripAll(SplitOn(list, ',')), (p: string) => p != "")
  }

  /** A token is four characters, rounded down, and at least one. */
  lemma EstimateExactly(text: string)
    ensures |text| < 4 ==> EstimateTokens(text) == 1
    ensures |text| >= 4 ==> 4 * EstimateTokens(text) <= |text| < 4 * EstimateTokens(text) + 4
  {
  }

  /** Splitting undoes joining: the pieces hold no separator and join to the text. */
  lemma {:induction false} SplitExactly(text: string, sep: char)
    ensures SplitOn(text, sep) != [] && Join(SplitOn(text, sep), [sep]) == text
    ensures forall p :: p in SplitOn(text, sep) ==> sep !in p
  {
    if sep in text {
      var i := FirstAt(text, sep);
      SplitExactly(text[i + 1..], sep);
      FirstIsFirst(text, sep);
      assert text == text[..i] + [sep] + text[i + 1..];
    }
  }

  lemma {:induction false} FirstIsFirst(text: string, c: char)
    requires c in text
    ensures c !in text[..FirstAt(text, c)]
  {
    if text[0] != c {
      FirstIsFirst(text[1..], c);
      var i := FirstAt(text, c);
      assert text[..i] == [text[0]] + text[1..][..i - 1];
    }
  }

  /** A list of trimmed, non-empty items without commas is read back as it was written. */
  lemma PiecesReadBack(items: seq<string>)
    requires items != [] && forall p :: p in items ==> p != "" && ',' !in p && Strip(p) == p
    ensures Pieces(Join(items, ",")) == items
  {
    SplitJoined(items, ',');
    assert StripAll(items) == items;
    KeepAll(items, (p: string) => p != "");
  }

  lemma {:induction false} SplitJoined(items: seq<string>, sep: char)
    requires items != [] && forall p :: p in items ==> sep !in p
    ensures SplitOn(Join(items, [sep]), sep) == items
  {
    if |items| > 1 {
      SplitJoined(items[1..], sep);
      SplitFirst(items[0], sep, Join(items[1..], [sep]));
      assert items == [items[0]] + items[1..];
    }
  }

  lemma SplitFirst(head: string, sep: char, rest: string)
    requires sep !in head
    ensures SplitOn(head + [sep] + rest, sep) == [head] + SplitOn(rest, sep)
  {
    FirstOfJoin(head, sep, rest);
  }

  lemma {:induction false} FirstOfJoin(head: string, sep: char, rest: string)
    requires sep !in head
    ensures var text := head + [sep] + rest;
            sep in text && FirstAt(text, sep) == |head| && text[..|head|] == head && text[|head| + 1..] == rest
  {
    var text := head + [sep] + rest;
    assert text[|head|] == sep;
    if head != "" {
      assert text[1..] == head[1..] + [sep] + rest;
      FirstOfJoin(head[1..], sep, rest);
    }
  }
}

/** Incremental splitting of a chunked event stream at blank lines. */
module Sse {
  import opened Whitespace

  const SEPARATOR := "\n\n"

  predicate SeparatorAt(text: string, i: nat) {
    i + 2 <= |text| && text[i] == '\n' && text[i + 1] == '\n'
  }

  /** The first position of the separator, or the length of the text when there is none. */
  function IndexOf(text: string): (i: nat)
    ensures i <= |text|
    ensures i < |text| ==> SeparatorAt(text, i)
    ensures forall j :: 0 <= j < i ==> !SeparatorAt(text, j)
  {
    if |text| < 2 then |text|
    else if SeparatorAt(text, 0) then 0
    else
      var rest := IndexOf(text[1..]);
      assert forall j :: 1 <= j ==> SeparatorAt(text, j) == SeparatorAt(text[1..], j - 1);
      1 + rest
  }

  predicate Found(text: string) {
    IndexOf(text) < |text|
  }

  datatype Split = Split(events: seq<string>, rest: string) {
    function After(earlier: seq<string>): Split {
      Split(earlier + events, rest)
    }
  }

  /** The leftmost split of a whole text. */
  function SplitAll(text: string): Split
    decreases |text|
  {
    if !Found(text) then Split([], text)
    else
      var i := IndexOf(text);
      SplitAll(text[i + 2..]).After([text[..i]])
  }

  /** What a caller sees of a whole text. */
  function Events(text: string): seq<string> {
    var split := SplitAll(text);
    split.events + (if IsBlank(split.rest) then [] else [split.rest])
  }

  function Concat(chunks: seq<string>): string {
    if chunks == [] then "" else Concat(chunks[..|chunks| - 1]) + chunks[|chunks| - 1]
  }

  /** Reads the chunks in turn, emitting every event as soon as its separator is complete. */
  method ConsumeSSE(chunks: seq<string>) returns (events: seq<string>)
    ensures events == Events(Concat(chunks))
  {
    events := [];
    var buffer := "";
    for i := 0 to |chunks|
      invariant SplitAll(Concat(chunks[..i])) == Split(events, buffer)
    {
      assert chunks[..i + 1][..i] == chunks[..i];
      ghost var before := events;
      SplitConcat(Concat(chunks[..i]), chunks[i]);
      buffer := buffer + chunks[i];
      ghost var whole := SplitAll(buffer);
      while Found(buffer)
        invariant events + SplitAll(buffer).events == before + whole.events
        invariant SplitAll(buffer).rest == whole.rest
        decreases |buffer|
      {
        var separator := IndexOf(buffer);
        events := events + [buffer[..separator]];
        buffer := buffer[separator + 2..];
      }
    }
    assert chunks[..|chunks|] == chunks;
    if !IsBlank(buffer) {
      events := events + [buffer];
    }
  }

  /** The first separator of a text is the first one of any longer text. */
  lemma IndexOfAppend(a: string, b: string)
    requires Found(a)
    ensures IndexOf(a + b) == IndexOf(a)
  {
    assert SeparatorAt(a + b, IndexOf(a));
    assert forall j :: 0 <= j < IndexOf(a) ==> SeparatorAt(a + b, j) == SeparatorAt(a, j);
  }

  lemma SplitFirst(a: string, b: string)
    requires Found(a)
    ensures SplitAll(a + b) == SplitAll(a[IndexOf(a) + 2..] + b).After([a[..IndexOf(a)]])
  {
    IndexOfAppend(a, b);
    assert (a + b)[IndexOf(a) + 2..] == a[IndexOf(a) + 2..] + b;
    assert (a + b)[..IndexOf(a)] == a[..IndexOf(a)];
  }

  lemma AfterAfter(split: Split, first: seq<string>, second: seq<string>)
    ensures split.After(second).After(first) == split.After(first + second)
    ensures split.After([]) == split
  {
    assert first + (second + split.events) == (first + second) + split.events;
  }

  /** Splitting can stop after any prefix and go on with what was left over, wherever the text was
      cut. */
  lemma {:induction false} SplitConcat(a: string, b: string)
    ensures SplitAll(a + b) == SplitAll(SplitAll(a).rest + b).After(SplitAll(a).events)
    decreases |a|
  {
    if Found(a) {
      var head, tail := [a[..IndexOf(a)]], a[IndexOf(a) + 2..];
      SplitFirst(a, b);
      SplitConcat(tail, b);
      AfterAfter(SplitAll(SplitAll(tail).rest + b), head, SplitAll(tail).events);
    } else {
      AfterAfter(SplitAll(a + b), [], []);
    }
  }

  // ---------- What the split is ----------

  function Join(events: seq<string>, rest: string): string {
    if events == [] then rest else events[0] + SEPARATOR + Join(events[1..], rest)
  }

  /** A piece that ends at the first blank line after it starts. */
  ghost predicate IsEvent(event: string) {
    IndexOf(event + SEPARATOR) == |event|
  }

  /** The split loses nothing, and every piece ends at the first separator after it starts. */
  lemma {:induction false} SplitJoins(text: string)
    ensures var split := SplitAll(text);
      && Join(split.events, split.rest) == text
      && !Found(split.rest)
      && forall event :: event in split.events ==> IsEvent(event)
    decreases |text|
  {
    if Found(text) {
      var i := IndexOf(text);
      SplitJoins(text[i + 2..]);
      var tail := SplitAll(text[i + 2..]);
      assert ([text[..i]] + tail.events)[1..] == tail.events;
      assert text == text[..i] + SEPARATOR + text[i + 2..];
      EventIsFirst(text, i);
    }
  }

  lemma EventIsFirst(text: string, i: nat)
    requires i == IndexOf(text) < |text|
    ensures IsEvent(text[..i])
  {
    var event := text[..i] + SEPARATOR;
    assert SeparatorAt(event, i);
    assert forall j :: 0 <= j < i ==> SeparatorAt(event, j) == SeparatorAt(text, j);
  }

  /** Splitting inverts joining: the leftmost split is the only one with these properties. */
  lemma {:induction false} JoinSplits(events: seq<string>, rest: string)
    requires !Found(rest) && forall event :: event in events ==> IsEvent(event)
    ensures SplitAll(Join(events, rest)) == Split(events, rest)
    decreases |events|
  {
    if events != [] {
      var text := Join(events, rest);
      var tail := Join(events[1..], rest);
      JoinSplits(events[1..], rest);
      assert events[0] in events;
      IndexOfAppend(events[0] + SEPARATOR, tail);
      assert text[..|events[0]|] == events[0];
      assert text[|events[0]| + 2..] == tail;
      assert [events[0]] + events[1..] == events;
    }
  }

  /** The events of a stream do not depend on how it is cut into chunks. */
  lemma ChunkingDoesNotMatter(chunks: seq<string>, others: seq<string>, events: seq<string>, rest: string)
    requires Concat(chunks) == Concat(others) == Join(events, rest)
    requires !Found(rest) && forall event :: event in events ==> IsEvent(event)
    ensures Events(Concat(chunks)) == Events(Concat(others)) == events + (if IsBlank(rest) then [] else [rest])
  {
    JoinSplits(events, rest);
  }
}

/** Merging OCR lines into a page's text layer: substring de-duplication per page and a stable sort
    into reading order. */
module OcrMerge {
  import opened Documents

  const NO_PAGE := 1_000_000_000

  /** A content item.  `norm` is its normalised text; `bbox` is empty when the item has none. */
  datatype Item = Item(page: Option<int>, bbox: seq<real>, text: string, norm: string)

  /** A recognised line, its text stripped, with its normalised form. */
  datatype Line = Line(text: string, norm: string, bbox: seq<real>)

  /** The lines of the flagged pages, in the order of the dictionary that holds them. */
  datatype OcrPage = OcrPage(page: int, lines: seq<Line>)

  // ---------- De-duplication ----------

  predicate Contains(text: string, part: string) {
    exists i {:trigger text[i..]} :: 0 <= i <= |text| && part <= text[i..]
  }

  predicate Comparable(a: string, b: string) {
    Contains(a, b) || Contains(b, a)
  }

  predicate Clashes(known: set<string>, norm: string) {
    exists k :: k in known && k != "" && Comparable(norm, k)
  }

  function KnownOn(content: seq<Item>, page: int): set<string> {
    set item | item in content && item.page == Some(page) && item.norm != "" :: item.norm
  }

  /** The lines of one page that add text, in order. */
  function Accepted(known: set<string>, lines: seq<Line>): seq<Line>
    decreases |lines|
  {
    if lines == [] then []
    else
      var line := lines[0];
      if line.text == "" || line.norm == "" || Clashes(known, line.norm) then Accepted(known, lines[1..])
      else [line] + Accepted(known + {line.norm}, lines[1..])
  }

  function AsItem(page: int, line: Line): Item {
    Item(Some(page), line.bbox, line.text, line.norm)
  }

  function AsItems(page: int, lines: seq<Line>): seq<Item> {
    seq(|lines|, i requires 0 <= i < |lines| => AsItem(page, lines[i]))
  }

  function Extra(content: seq<Item>, pages: seq<OcrPage>): seq<Item> {
    if pages == [] then []
    else
      var last := pages[|pages| - 1];
      Extra(content, pages[..|pages| - 1]) + AsItems(last.page, Accepted(KnownOn(content, last.page), last.lines))
  }

  function Norms(lines: seq<Line>): set<string> {
    set line | line in lines :: line.norm
  }

  lemma ContainsSelf(s: string)
    ensures Contains(s, s)
  {
    assert s <= s[0..];
  }

  /** Accepted lines add text: none is a substring of, or contains, another accepted line or an
      existing text of the page. */
  lemma {:induction false} AcceptedAddText(known: set<string>, lines: seq<Line>)
    ensures var accepted := Accepted(known, lines);
      && (forall line :: line in accepted ==> line in lines && line.text != "" && line.norm != "")
      && (forall line, k :: line in accepted && k in known && k != "" ==> !Comparable(line.norm, k))
      && forall i, j :: 0 <= i < j < |accepted| ==> !Comparable(accepted[i].norm, accepted[j].norm)
    decreases |lines|
  {
    if lines != [] {
      var line := lines[0];
      if line.text == "" || line.norm == "" || Clashes(known, line.norm) {
        AcceptedAddText(known, lines[1..]);
      } else {
        var rest := Accepted(known + {line.norm}, lines[1..]);
        AcceptedAddText(known + {line.norm}, lines[1..]);
        var accepted := [line] + rest;
        forall i, j | 0 <= i < j < |accepted| ensures !Comparable(accepted[i].norm, accepted[j].norm) {
          if i == 0 {
            assert rest[j - 1] in rest;
          }
        }
      }
    }
  }

  /** Nothing readable is lost: every line with text is, or is comparable with, a text the page ends
      up with. */
  lemma {:induction false} RejectedIsCovered(known: set<string>, lines: seq<Line>, line: Line)
    requires line in lines && line.text != "" && line.norm != ""
    ensures exists k :: k in known + Norms(Accepted(known, lines)) && k != "" && Comparable(line.norm, k)
    decreases |lines|
  {
    var head := lines[0];
    if head.text == "" || head.norm == "" || Clashes(known, head.norm) {
      if line != head {
        RejectedIsCovered(known, lines[1..], line);
      } else {
        var k :| k in known && k != "" && Comparable(line.norm, k);
      }
    } else {
      var rest := Accepted(known + {head.norm}, lines[1..]);
      var accepted := Accepted(known, lines);
      assert accepted == [head] + rest;
      assert head in accepted && head.norm in Norms(accepted);
      if line == head {
        ContainsSelf(head.norm);
        assert Comparable(line.norm, head.norm);
      } else {
        RejectedIsCovered(known + {head.norm}, lines[1..], line);
        var k :| k in known + {head.norm} + Norms(rest) && k != "" && Comparable(line.norm, k);
        if k in Norms(rest) {
          var l :| l in rest && l.norm == k;
          assert l in accepted;
        }
        assert k in known + Norms(accepted);
      }
    }
  }

  // ---------- Reading order ----------

  datatype Key = Key(page: int, y: real)

  function SortKey(item: Item): Key {
    Key(if item.page.Some? then item.page.value else NO_PAGE, if |item.bbox| > 1 then item.bbox[1] else 0.0)
  }

  predicate AtMost(a: Key, b: Key) {
    a.page < b.page || (a.page == b.page && a.y <= b.y)
  }

  /** After every item with a key at most its own. */
  function Insert(sorted: seq<Item>, item: Item): seq<Item> {
    if sorted == [] then [item]
    else if AtMost(SortKey(sorted[|sorted| - 1]), SortKey(item)) then sorted + [item]
    else Insert(sorted[..|sorted| - 1], item) + [sorted[|sorted| - 1]]
  }

  function StableSort(items: seq<Item>): seq<Item> {
    if items == [] then [] else Insert(StableSort(items[..|items| - 1]), items[|items| - 1])
  }

  ghost predicate Sorted(items: seq<Item>) {
    forall i, j :: 0 <= i < j < |items| ==> AtMost(SortKey(items[i]), SortKey(items[j]))
  }

  function WithKey(items: seq<Item>, key: Key): seq<Item> {
    if items == [] then []
    else
      var last := items[|items| - 1];
      WithKey(items[..|items| - 1], key) + (if SortKey(last) == key then [last] else [])
  }

  lemma WithKeyAppend(items: seq<Item>, last: Item, key: Key)
    ensures WithKey(items + [last], key) == WithKey(items, key) + (if SortKey(last) == key then [last] else [])
  {
    assert (items + [last])[..|items|] == items;
  }

  lemma {:induction false} InsertPermutes(sorted: seq<Item>, item: Item)
    ensures multiset(Insert(sorted, item)) == multiset(sorted) + multiset{item}
    ensures forall other :: other in Insert(sorted, item) <==> other in sorted || other == item
  {
    if sorted != [] {
      var front, last := sorted[..|sorted| - 1], sorted[|sorted| - 1];
      assert sorted == front + [last];
      InsertPermutes(front, item);
    }
  }

  lemma {:induction false} InsertOrders(sorted: seq<Item>, item: Item)
    requires Sorted(sorted)
    ensures Sorted(Insert(sorted, item))
  {
    if sorted != [] && !AtMost(SortKey(sorted[|sorted| - 1]), SortKey(item)) {
      var front, last := sorted[..|sorted| - 1], sorted[|sorted| - 1];
      InsertOrders(front, item);
      InsertPermutes(front, item);
      var inner := Insert(front, item);
      forall i | 0 <= i < |inner| ensures AtMost(SortKey(inner[i]), SortKey(last)) {
        assert inner[i] in inner;
      }
    }
  }

  lemma {:induction false} InsertIsStable(sorted: seq<Item>, item: Item, key: Key)
    requires Sorted(sorted)
    ensures WithKey(Insert(sorted, item), key) == WithKey(sorted, key) + (if SortKey(item) == key then [item] else [])
  {
    if sorted == [] {
      WithKeyAppend([], item, key);
      assert [] + [item] == [item];
    } else {
      var front, last := sorted[..|sorted| - 1], sorted[|sorted| - 1];
      assert sorted == front + [last];
      if AtMost(SortKey(last), SortKey(item)) {
        WithKeyAppend(sorted, item, key);
      } else {
        InsertIsStable(front, item, key);
        WithKeyAppend(Insert(front, item), last, key);
        WithKeyAppend(front, last, key);
      }
    }
  }

  /** The sort is a permutation, is in order, and keeps the order of equal keys. */
  lemma {:induction false} StableSortSorts(items: seq<Item>, key: Key)
    ensures Sorted(StableSort(items)) && multiset(StableSort(items)) == multiset(items)
    ensures WithKey(StableSort(items), key) == WithKey(items, key)
  {
    if items != [] {
      var front, last := items[..|items| - 1], items[|items| - 1];
      assert items == front + [last];
      StableSortSorts(front, key);
      InsertPermutes(StableSort(front), last);
      InsertOrders(StableSort(front), last);
      InsertIsStable(StableSort(front), last, key);
    }
  }

  /** Equal selections of two lists stay equal when a common last item is removed. */
  lemma WithKeyTrim(a: seq<Item>, b: seq<Item>, last: Item, key: Key)
    requires WithKey(a + [last], key) == WithKey(b + [last], key)
    ensures WithKey(a, key) == WithKey(b, key)
  {
    WithKeyAppend(a, last, key);
    WithKeyAppend(b, last, key);
    var tail := if SortKey(last) == key then [last] else [];
    assert (WithKey(a, key) + tail)[..|WithKey(a, key)|] == WithKey(a, key);
    assert (WithKey(b, key) + tail)[..|WithKey(b, key)|] == WithKey(b, key);
  }

  lemma LastWithKey(items: seq<Item>)
    requires items != []
    ensures var last := items[|items| - 1];
            var same := WithKey(items, SortKey(last));
      same != [] && same[|same| - 1] == last
  {
  }

  lemma InBoth(a: seq<Item>, b: seq<Item>, item: Item)
    requires multiset(a) == multiset(b) && item in a
    ensures item in b
  {
    assert item in multiset(a);
  }

  lemma SameLast(a: seq<Item>, b: seq<Item>)
    requires Sorted(a) && Sorted(b) && a != [] && b != [] && multiset(a) == multiset(b)
    ensures SortKey(a[|a| - 1]) == SortKey(b[|b| - 1])
  {
    var x, y := a[|a| - 1], b[|b| - 1];
    InBoth(a, b, x);
    InBoth(b, a, y);
    var i :| 0 <= i < |b| && b[i] == x;
    var j :| 0 <= j < |a| && a[j] == y;
    assert i == |b| - 1 || AtMost(SortKey(b[i]), SortKey(y));
    assert j == |a| - 1 || AtMost(SortKey(a[j]), SortKey(x));
  }

  ghost predicate SameSelections(a: seq<Item>, b: seq<Item>) {
    forall key :: WithKey(a, key) == WithKey(b, key)
  }

  lemma TrimSelections(a: seq<Item>, b: seq<Item>, last: Item)
    requires SameSelections(a + [last], b + [last])
    ensures SameSelections(a, b)
  {
    forall key ensures WithKey(a, key) == WithKey(b, key) {
      WithKeyTrim(a, b, last, key);
    }
  }

  lemma TrimMultiset(a: seq<Item>, b: seq<Item>, last: Item)
    requires multiset(a + [last]) == multiset(b + [last])
    ensures multiset(a) == multiset(b)
  {
    assert multiset(a) == multiset(a + [last]) - multiset{last};
    assert multiset(b) == multiset(b + [last]) - multiset{last};
  }

  lemma SameLastItem(a: seq<Item>, b: seq<Item>)
    requires Sorted(a) && Sorted(b) && a != [] && b != [] && multiset(a) == multiset(b) && SameSelections(a, b)
    ensures a[|a| - 1] == b[|b| - 1]
  {
    SameLast(a, b);
    LastWithKey(a);
    LastWithKey(b);
    assert WithKey(a, SortKey(a[|a| - 1])) == WithKey(b, SortKey(a[|a| - 1]));
  }

  lemma Trim(a: seq<Item>, b: seq<Item>, last: Item)
    requires Sorted(a + [last]) && Sorted(b + [last])
    requires multiset(a + [last]) == multiset(b + [last]) && SameSelections(a + [last], b + [last])
    ensures Sorted(a) && Sorted(b) && multiset(a) == multiset(b) && SameSelections(a, b)
  {
    TrimSelections(a, b, last);
    TrimMultiset(a, b, last);
    SortedFront(a, last);
    SortedFront(b, last);
  }

  lemma SortedFront(a: seq<Item>, last: Item)
    requires Sorted(a + [last])
    ensures Sorted(a)
  {
    assert forall i :: 0 <= i < |a| ==> (a + [last])[i] == a[i];
  }

  /** There is only one stable sorted order. */
  lemma {:induction false} StableOrderIsUnique(a: seq<Item>, b: seq<Item>)
    requires Sorted(a) && Sorted(b) && multiset(a) == multiset(b) && SameSelections(a, b)
    ensures a == b
    decreases |a|
  {
    assert |a| == |multiset(a)| == |multiset(b)| == |b|;
    if a != [] {
      SameLastItem(a, b);
      var last := a[|a| - 1];
      var a', b' := a[..|a| - 1], b[..|b| - 1];
      assert a == a' + [last] && b == b' + [last];
      Trim(a', b', last);
      StableOrderIsUnique(a', b');
    }
  }

  // ---------- The merge ----------

  function Merged(content: seq<Item>, pages: seq<OcrPage>): seq<Item> {
    var extra := Extra(content, pages);
    if extra == [] then content else StableSort(content + extra)
  }

  ghost predicate DistinctPages(pages: seq<OcrPage>) {
    forall i, j :: 0 <= i < j < |pages| ==> pages[i].page != pages[j].page
  }

  method CollectExisting(content: seq<Item>) returns (existing: map<int, set<string>>)
    ensures forall page :: (if page in existing then existing[page] else {}) == KnownOn(content, page)
  {
    existing := map[];
    for i := 0 to |content|
      invariant forall page :: (if page in existing then existing[page] else {}) == KnownOn(content[..i], page)
    {
      var item := content[i];
      assert content[..i + 1] == content[..i] + [item];
      KnownAppend(content[..i], item);
      if item.page.Some? && item.norm != "" {
        var page := item.page.value;
        existing := existing[page := (if page in existing then existing[page] else {}) + {item.norm}];
      }
    }
    assert content[..|content|] == content;
  }

  lemma KnownAppend(content: seq<Item>, item: Item)
    ensures forall page :: KnownOn(content + [item], page)
              == KnownOn(content, page) + (if item.page == Some(page) && item.norm != "" then {item.norm} else {})
  {
    assert forall other :: other in content + [item] <==> other in content || other == item;
  }

  method AcceptLines(known: set<string>, lines: seq<Line>) returns (accepted: seq<Line>)
    ensures accepted == Accepted(known, lines)
  {
    accepted := [];
    var seen := known;
    for i := 0 to |lines|
      invariant Accepted(known, lines) == accepted + Accepted(seen, lines[i..])
    {
      var line := lines[i];
      assert lines[i..][1..] == lines[i + 1..];
      if line.text != "" && line.norm != "" && !Clashes(seen, line.norm) {
        seen := seen + {line.norm};
        accepted := accepted + [line];
      }
    }
  }

  method MergeOcrLines(content: seq<Item>, pages: seq<OcrPage>) returns (merged: seq<Item>)
    requires DistinctPages(pages)
    ensures merged == Merged(content, pages)
  {
    if pages == [] {
      return content;
    }
    var existing := CollectExisting(content);
    var extra: seq<Item> := [];
    for i := 0 to |pages|
      invariant extra == Extra(content, pages[..i])
    {
      var page := pages[i].page;
      var known := if page in existing then existing[page] else {};
      assert known == KnownOn(content, page);
      var accepted := AcceptLines(known, pages[i].lines);
      assert pages[..i + 1][..i] == pages[..i];
      extra := extra + AsItems(page, accepted);
    }
    assert pages[..|pages|] == pages;
    if extra == [] {
      return content;
    }
    merged := StableSort(content + extra);
  }

  lemma {:induction false} ExtraOnPage(content: seq<Item>, pages: seq<OcrPage>, i: nat)
    requires i < |pages| && DistinctPages(pages)
    ensures forall item :: item in Extra(content, pages) && item.page == Some(pages[i].page) <==>
              item in AsItems(pages[i].page, Accepted(KnownOn(content, pages[i].page), pages[i].lines))
    decreases |pages|
  {
    var front, last := pages[..|pages| - 1], pages[|pages| - 1];
    if i < |front| {
      ExtraOnPage(content, front, i);
    } else {
      ExtraElsewhere(content, front, last.page);
    }
  }

  lemma {:induction false} ExtraElsewhere(content: seq<Item>, pages: seq<OcrPage>, page: int)
    requires forall i :: 0 <= i < |pages| ==> pages[i].page != page
    ensures forall item :: item in Extra(content, pages) ==> item.page != Some(page)
    decreases |pages|
  {
    if pages != [] {
      ExtraElsewhere(content, pages[..|pages| - 1], page);
    }
  }

  lemma SameMembers(a: seq<Item>, b: seq<Item>)
    requires multiset(a) == multiset(b)
    ensures forall item :: item in a <==> item in b
  {
    forall item ensures item in a <==> item in b {
      assert item in a <==> item in multiset(a);
      assert item in b <==> item in multiset(b);
    }
  }

  lemma MergedMembers(content: seq<Item>, pages: seq<OcrPage>)
    ensures forall item :: item in Merged(content, pages) <==> item in content || item in Extra(content, pages)
  {
    var all := content + Extra(content, pages);
    StableSortSorts(all, Key(0, 0.0));
    SameMembers(StableSort(all), all);
  }

  lemma KnownUnion(all: seq<Item>, a: seq<Item>, b: seq<Item>, page: int)
    requires forall item :: item in all <==> item in a || item in b
    ensures KnownOn(all, page) == KnownOn(a, page) + KnownOn(b, page)
  {
  }

  lemma KnownOfAccepted(extra: seq<Item>, page: int, accepted: seq<Line>)
    requires forall item :: item in extra && item.page == Some(page) <==> item in AsItems(page, accepted)
    requires forall line :: line in accepted ==> line.norm != ""
    ensures KnownOn(extra, page) == Norms(accepted)
  {
    forall norm | norm in Norms(accepted) ensures norm in KnownOn(extra, page) {
      var line :| line in accepted && line.norm == norm;
      var k :| 0 <= k < |accepted| && accepted[k] == line;
      assert AsItems(page, accepted)[k] == AsItem(page, line);
      assert AsItem(page, line) in extra;
    }
  }

  /** The texts a page ends up with are the ones it had and the accepted ones. */
  lemma MergedKnown(content: seq<Item>, pages: seq<OcrPage>, i: nat)
    requires i < |pages| && DistinctPages(pages)
    ensures var page := pages[i].page;
      KnownOn(Merged(content, pages), page)
      == KnownOn(content, page) + Norms(Accepted(KnownOn(content, page), pages[i].lines))
  {
    var page := pages[i].page;
    var known := KnownOn(content, page);
    ExtraOnPage(content, pages, i);
    AcceptedAddText(known, pages[i].lines);
    KnownOfAccepted(Extra(content, pages), page, Accepted(known, pages[i].lines));
    MergedMembers(content, pages);
    KnownUnion(Merged(content, pages), content, Extra(content, pages), page);
  }

  /** On every flagged page: accepted lines are pairwise incomparable and incomparable with what was
      there, every readable line is comparable with a text of the merged page, and when anything is
      added the result is the stable reading order of exactly the old and the accepted items. */
  lemma MergeKeepsAndAdds(content: seq<Item>, pages: seq<OcrPage>, i: nat, line: Line)
    requires i < |pages| && DistinctPages(pages)
    requires line in pages[i].lines && line.text != "" && line.norm != ""
    ensures var page := pages[i].page;
            var accepted := Accepted(KnownOn(content, page), pages[i].lines);
      && (forall l, k :: l in accepted && k in KnownOn(content, page) ==> !Comparable(l.norm, k))
      && (forall a, b :: 0 <= a < b < |accepted| ==> !Comparable(accepted[a].norm, accepted[b].norm))
      && exists k :: k in KnownOn(Merged(content, pages), page) && k != "" && Comparable(line.norm, k)
    ensures Extra(content, pages) != [] ==>
      && Sorted(Merged(content, pages))
      && multiset(Merged(content, pages)) == multiset(content + Extra(content, pages))
      && forall key :: WithKey(Merged(content, pages), key) == WithKey(content + Extra(content, pages), key)
  {
    var known := KnownOn(content, pages[i].page);
    AcceptedAddText(known, pages[i].lines);
    RejectedIsCovered(known, pages[i].lines, line);
    MergedKnown(content, pages, i);
    forall key ensures WithKey(StableSort(content + Extra(content, pages)), key)
                    == WithKey(content + Extra(content, pages), key)
                    && Sorted(StableSort(content + Extra(content, pages)))
                    && multiset(StableSort(content + Extra(content, pages))) == multiset(content + Extra(content, pages))
    {
      StableSortSorts(content + Extra(content, pages), key);
    }
    StableSortSorts(content + Extra(content, pages), Key(0, 0.0));
  }

  /** What the reading order is: by page, items without one last; on a page by the top of the box, an
      item without a box counting as at the top of the page. */
  lemma MergedReadsInOrder(content: seq<Item>, pages: seq<OcrPage>, i: nat, j: nat)
    requires Extra(content, pages) != [] && i < j < |Merged(content, pages)|
    ensures var a, b := Merged(content, pages)[i], Merged(content, pages)[j];
      && (a.page.Some? && b.page.Some? ==> a.page.value <= b.page.value)
      && (a.page.None? && b.page.Some? ==> b.page.value >= 1_000_000_000)
      && (a.page == b.page && |a.bbox| > 1 && |b.bbox| > 1 ==> a.bbox[1] <= b.bbox[1])
      && (a.page == b.page && |a.bbox| <= 1 && |b.bbox| > 1 ==> 0.0 <= b.bbox[1])
      && (a.page == b.page && |a.bbox| > 1 && |b.bbox| <= 1 ==> a.bbox[1] <= 0.0)
  {
    StableSortSorts(content + Extra(content, pages), Key(0, 0.0));
    assert AtMost(SortKey(Merged(content, pages)[i]), SortKey(Merged(content, pages)[j]));
  }

  /** An accepted line is in the result as an item of its page with its own text and box, and every old
      item is still there. */
  lemma AcceptedBecomesItem(content: seq<Item>, pages: seq<OcrPage>, i: nat, line: Line, item: Item)
    requires i < |pages| && DistinctPages(pages)
    requires line in Accepted(KnownOn(content, pages[i].page), pages[i].lines)
    ensures Item(Some(pages[i].page), line.bbox, line.text, line.norm) in Merged(content, pages)
    ensures item in content ==> item in Merged(content, pages)
  {
    var page := pages[i].page;
    var accepted := Accepted(KnownOn(content, page), pages[i].lines);
    MergedMembers(content, pages);
    ExtraOnPage(content, pages, i);
    var k :| 0 <= k < |accepted| && accepted[k] == line;
    assert AsItems(page, accepted)[k] == AsItem(page, line);
  }
}

/** The newest-first translation history and its 50-entry cap
    (`[newItem, ...prev].slice(0, 50)`). */
module History {
  import opened Types

  /** How many entries the history keeps. */
  const MAX_HISTORY: nat := 50

  function Min(a: int, b: int): (m: int) {
    if a <= b then a else b
  }

  /** The entry recorded for a successful translation. The source text and
      direction are the ones captured when the request was submitted. */
  function NewItem(id: string, submittedSource: string, result: string,
                   submittedDirection: Direction, timestamp: int): (item: HistoryItem)
    ensures item.sourceText == submittedSource && item.translatedText == result
    ensures item.direction == submittedDirection
    ensures item.id == id && item.timestamp == timestamp
  {
    HistoryItem(id, submittedSource, result, submittedDirection, timestamp)
  }

  /** Put `item` in front of `h` and keep at most the first MAX_HISTORY entries:
      the new entry is first, the rest is the newest part of the old history,
      and the length grows by one until it reaches the cap. */
  function Prepend(item: HistoryItem, h: seq<HistoryItem>): (r: seq<HistoryItem>)
    ensures |r| == Min(|h| + 1, MAX_HISTORY)
    ensures |r| <= MAX_HISTORY
    ensures r[0] == item
    ensures r[1..] == h[..|r| - 1]
  {
    ([item] + h)[..Min(|h| + 1, MAX_HISTORY)]
  }

  /** Below the cap nothing is evicted; at the cap exactly the oldest (last)
      entry is dropped; and no entry other than `item` is ever new. */
  lemma PrependEviction(item: HistoryItem, h: seq<HistoryItem>)
    ensures |h| < MAX_HISTORY ==> Prepend(item, h) == [item] + h
    ensures |h| == MAX_HISTORY ==> Prepend(item, h) == [item] + h[..|h| - 1]
    ensures forall e :: e in Prepend(item, h) ==> e == item || e in h
  {
    var r := Prepend(item, h);
    assert r == [r[0]] + r[1..];
    forall e | e in r ensures e == item || e in h {
      if e != item {
        assert e in r[1..];
        assert h[..|r| - 1] <= h;
      }
    }
  }

  /** The history after a series of successful translations, `items` oldest first. */
  function PrependAll(items: seq<HistoryItem>, h: seq<HistoryItem>): (r: seq<HistoryItem>)
    decreases |items|
  {
    if items == [] then h else PrependAll(items[1..], Prepend(items[0], h))
  }

  /** `s` back to front. */
  function Reversed(s: seq<HistoryItem>): (r: seq<HistoryItem>)
    ensures |r| == |s|
    ensures forall i :: 0 <= i < |s| ==> r[i] == s[|s| - 1 - i]
  {
    if s == [] then [] else Reversed(s[1..]) + [s[0]]
  }

  /** Cutting a tail beyond what is kept changes no kept entry. */
  lemma TakeOfTake(a: seq<HistoryItem>, b: seq<HistoryItem>, m: nat, k: nat)
    requires m <= |b| && k <= |a| + m
    ensures (a + b[..m])[..k] == (a + b)[..k]
  {
    assert forall i :: 0 <= i < k ==> (a + b[..m])[i] == (a + b)[i];
  }

  /** After any non-empty series of successful translations the history is the
      newest MAX_HISTORY entries of everything ever recorded, newest first. */
  lemma {:induction false} PrependAllKeepsNewest(items: seq<HistoryItem>, h: seq<HistoryItem>)
    requires items != []
    ensures PrependAll(items, h)
         == (Reversed(items) + h)[..Min(|items| + |h|, MAX_HISTORY)]
  {
    var x := items[0];
    var rest := items[1..];
    var p := Prepend(x, h);
    assert Reversed(items) == Reversed(rest) + [x];
    if rest == [] {
      assert PrependAll(items, h) == p;
      assert Reversed(items) == [x];
    } else {
      PrependAllKeepsNewest(rest, p);
      var m := Min(|h| + 1, MAX_HISTORY);
      var k := Min(|rest| + |p|, MAX_HISTORY);
      assert p == ([x] + h)[..m];
      TakeOfTake(Reversed(rest), [x] + h, m, k);
      assert Reversed(rest) + ([x] + h) == Reversed(items) + h;
      assert k == Min(|items| + |h|, MAX_HISTORY);
    }
  }
}

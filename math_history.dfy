/**
 * The calculator's history cache as values: a most-recent-first sequence of
 * records, at most `MaxHistory` long once it has been kept by `commit`, with no
 * two records sharing an (equation, result) pair.  These functions are the
 * specification the `Math` class's methods are proved against.
 */
module MathHistory {
  import opened Wrappers

  /** One evaluated line: what was typed, what it gave, and a presentation tag. */
  datatype HistoryItem = HistoryItem(equation: string, result: string, icon: string)

  /** `#maxHistory` */
  const MaxHistory: nat := 20

  /** Two records are the same entry when equation and result agree; the icon is ignored. */
  predicate SameEntry(a: HistoryItem, b: HistoryItem) {
    a.equation == b.equation && a.result == b.result
  }

  /** The cache invariant on duplicates: no two positions hold the same entry. */
  ghost predicate Distinct(h: seq<HistoryItem>) {
    forall i, j :: 0 <= i < j < |h| ==> !SameEntry(h[i], h[j])
  }

  /** `history.findIndex(i => i.equation === item.equation && i.result === item.result)` */
  function FindIndex(h: seq<HistoryItem>, item: HistoryItem): (r: Option<nat>)
    ensures r.None? ==> forall j :: 0 <= j < |h| ==> !SameEntry(h[j], item)
    ensures r.Some? ==> r.value < |h| && SameEntry(h[r.value], item)
    ensures r.Some? ==> forall j :: 0 <= j < r.value ==> !SameEntry(h[j], item)
  {
    if h == [] then None
    else if SameEntry(h[0], item) then Some(0)
    else match FindIndex(h[1..], item)
      case None => None
      case Some(k) => Some(k + 1)
  }

  /** `h` with position `k` spliced out. */
  function RemoveAt(h: seq<HistoryItem>, k: nat): seq<HistoryItem>
    requires k < |h|
  {
    h[..k] + h[k + 1..]
  }

  /**
   * The history after `select(item)`: when some entry matches, that entry is
   * spliced out and `item` itself (not the stored entry) is put in front;
   * otherwise nothing changes.
   */
  function Selected(h: seq<HistoryItem>, item: HistoryItem): (r: seq<HistoryItem>)
    ensures |r| == |h|
    ensures (forall j :: 0 <= j < |h| ==> !SameEntry(h[j], item)) ==> r == h
    ensures (exists j :: 0 <= j < |h| && SameEntry(h[j], item)) ==>
      r[0] == item && forall i :: 0 < i < |r| ==> r[i] in h
  {
    match FindIndex(h, item)
    case None => h
    case Some(k) =>
      var rest := RemoveAt(h, k);
      assert forall i :: 0 <= i < |rest| ==> rest[i] == h[if i < k then i else i + 1];
      [item] + rest
  }

  /** `unshift(item)` followed by a single `pop()` when the length exceeds the maximum. */
  function Inserted(h: seq<HistoryItem>, item: HistoryItem): (r: seq<HistoryItem>)
    ensures |r| == if |h| < MaxHistory then |h| + 1 else |h|
    ensures r[0] == item && r[1..] == h[..|r| - 1]
  {
    var grown := [item] + h;
    if |grown| > MaxHistory then grown[..|grown| - 1] else grown
  }

  /** The history after `commit()` with `pending` staged: select it, or insert it when nothing matches. */
  function Committed(h: seq<HistoryItem>, pending: HistoryItem): (r: seq<HistoryItem>)
    ensures 1 <= |r| <= |h| + 1 && r[0] == pending
    ensures forall i :: 0 < i < |r| ==> r[i] in h
  {
    match FindIndex(h, pending)
    case Some(k) =>
      assert SameEntry(h[k], pending);
      Selected(h, pending)
    case None =>
      var grown := Inserted(h, pending);
      assert forall i :: 0 < i < |grown| ==> grown[i] == grown[1..][i - 1] == h[i - 1];
      grown
  }

  /** Where the entry at old position `i` sits after entry `k` was moved to the front. */
  function Shifted(i: nat, k: nat): nat {
    if i < k then i + 1 else i
  }

  // ---------------------------------------------------------------- select

  /**
   * A successful select keeps the length, puts the argument in front, and keeps
   * every other entry in its old relative order: the entry at old position `i`
   * (other than the matched one) now sits at `Shifted(i, k)`.
   */
  lemma SelectMovesToFront(h: seq<HistoryItem>, item: HistoryItem)
    requires FindIndex(h, item).Some?
    ensures var k, r := FindIndex(h, item).value, Selected(h, item);
      && |r| == |h| && r[0] == item
      && forall i :: 0 <= i < |h| && i != k ==> r[Shifted(i, k)] == h[i]
  {
    var k := FindIndex(h, item).value;
    var r := Selected(h, item);
    forall i | 0 <= i < |h| && i != k
      ensures r[Shifted(i, k)] == h[i]
    {
      if i < k {
        assert r[i + 1] == h[..k][i];
      } else {
        assert r[i] == h[k + 1..][i - k - 1];
      }
    }
  }

  /** Select keeps the no-duplicates invariant. */
  lemma SelectKeepsDistinct(h: seq<HistoryItem>, item: HistoryItem)
    requires Distinct(h)
    ensures Distinct(Selected(h, item))
  {
    match FindIndex(h, item)
    case None =>
    case Some(k) => MoveToFrontKeepsDistinct(h, k, item);
  }

  /** Moving an entry that matches `item` to the front, as `item`, keeps a history free of duplicates. */
  lemma MoveToFrontKeepsDistinct(h: seq<HistoryItem>, k: nat, item: HistoryItem)
    requires Distinct(h) && k < |h| && SameEntry(h[k], item)
    ensures Distinct([item] + RemoveAt(h, k))
  {
    var r := [item] + RemoveAt(h, k);
    forall a, b | 0 <= a < b < |r|
      ensures !SameEntry(r[a], r[b])
    {
      var ob := if b - 1 < k then b - 1 else b;
      assert r[b] == h[ob] && ob != k;
      if a == 0 {
        // r[b] is an old entry other than h[k], which matches item
        if ob < k { assert !SameEntry(h[ob], h[k]); } else { assert !SameEntry(h[k], h[ob]); }
      } else {
        var oa := if a - 1 < k then a - 1 else a;
        assert r[a] == h[oa] && oa < ob;
      }
    }
  }

  /** Selecting the same item twice in a row is the same as selecting it once. */
  lemma SelectIdempotent(h: seq<HistoryItem>, item: HistoryItem)
    ensures Selected(Selected(h, item), item) == Selected(h, item)
  {
    match FindIndex(h, item)
    case None =>
    case Some(k) =>
      var r := Selected(h, item);
      assert FindIndex(r, item) == Some(0);
      assert [item] + RemoveAt(r, 0) == r;
  }

  // ---------------------------------------------------------------- commit

  /** After a commit the staged record is the most recent entry. */
  lemma CommitPutsPendingFirst(h: seq<HistoryItem>, pending: HistoryItem)
    ensures |Committed(h, pending)| > 0 && Committed(h, pending)[0] == pending
  {
  }

  /**
   * A commit that matches an existing entry moves it and keeps the length; one
   * that does not grows the history by one, or keeps the length when the
   * history was already at (or over) the maximum, dropping the oldest entry.
   */
  lemma CommitLength(h: seq<HistoryItem>, pending: HistoryItem)
    ensures FindIndex(h, pending).Some? ==> |Committed(h, pending)| == |h|
    ensures FindIndex(h, pending).None? && |h| < MaxHistory ==>
      Committed(h, pending) == [pending] + h
    ensures FindIndex(h, pending).None? && |h| >= MaxHistory ==>
      Committed(h, pending) == [pending] + h[..|h| - 1]
  {
    if FindIndex(h, pending).Some? {
      SelectMovesToFront(h, pending);
    } else if |h| >= MaxHistory {
      assert ([pending] + h)[..|h|] == [pending] + h[..|h| - 1];
    }
  }

  /** Commit never lets the history grow past the maximum, or past its loaded length if that was larger. */
  lemma CommitBounded(h: seq<HistoryItem>, pending: HistoryItem)
    ensures |Committed(h, pending)| <= if |h| > MaxHistory then |h| else MaxHistory
    ensures |h| <= MaxHistory ==> |Committed(h, pending)| <= MaxHistory
  {
    CommitLength(h, pending);
  }

  /** Commit keeps the no-duplicates invariant. */
  lemma CommitKeepsDistinct(h: seq<HistoryItem>, pending: HistoryItem)
    requires Distinct(h)
    ensures Distinct(Committed(h, pending))
  {
    if FindIndex(h, pending).Some? {
      SelectKeepsDistinct(h, pending);
    } else {
      var grown := [pending] + h;
      assert Distinct(grown) by {
        forall a, b | 0 <= a < b < |grown|
          ensures !SameEntry(grown[a], grown[b])
        {
          if a == 0 { assert grown[b] == h[b - 1]; } else { assert grown[a] == h[a - 1] && grown[b] == h[b - 1]; }
        }
      }
    }
  }

  /** Committing the same record twice in a row changes nothing the second time. */
  lemma CommitIdempotent(h: seq<HistoryItem>, pending: HistoryItem)
    ensures Committed(Committed(h, pending), pending) == Committed(h, pending)
  {
    var r := Committed(h, pending);
    CommitPutsPendingFirst(h, pending);
    assert FindIndex(r, pending) == Some(0);
    assert [pending] + RemoveAt(r, 0) == r;
  }
}

/**
 * The checked-state map of the checklist renderer (`checkedItems`, components/MarkdownRenderer.tsx):
 * reading it, the single-key update a toggle makes, and building it from scratch out of a list of
 * (key, flag) pairs in document order.
 */
module CheckedItems {

  /** One `newCheckedItems[key] = isChecked` assignment of the seed scan. */
  datatype Entry = Entry(key: string, checked: bool)

  /** `checkedItems[key] || false`: a key that was never seeded reads as unchecked. */
  function Lookup(m: map<string, bool>, key: string): (b: bool)
    ensures key !in m ==> !b
    ensures key in m ==> b == m[key]
  {
    key in m && m[key]
  }

  /** `{ ...prev, [key]: newState }`: the key takes the negation of the state shown on screen,
      every other key keeps its value, and no other key appears. */
  function AfterToggle(m: map<string, bool>, key: string, shown: bool): (r: map<string, bool>)
    ensures Lookup(r, key) == !shown
    ensures r.Keys == m.Keys + {key}
    ensures forall k :: k in m && k != key ==> r[k] == m[k]
  {
    m[key := !shown]
  }

  /** Toggling a key twice, each time from what the screen shows, reads back as before for every key. */
  lemma ToggleTwiceRestores(m: map<string, bool>, key: string, k: string)
    ensures var once := AfterToggle(m, key, Lookup(m, key));
            Lookup(AfterToggle(once, key, Lookup(once, key)), k) == Lookup(m, k)
  {
  }

  /** Index of the last entry with key `k`, or -1 when there is none. */
  function LastWith(es: seq<Entry>, k: string): (i: int)
    ensures -1 <= i < |es|
    ensures i >= 0 ==> es[i].key == k
    ensures forall j :: i < j < |es| ==> es[j].key != k
  {
    if es == [] then -1
    else if es[|es| - 1].key == k then |es| - 1
    else LastWith(es[..|es| - 1], k)
  }

  /** The map a fresh `{}` holds after assigning the entries one after another. */
  function Build(es: seq<Entry>): map<string, bool> {
    if es == [] then map[] else Build(es[..|es| - 1])[es[|es| - 1].key := es[|es| - 1].checked]
  }

  /** A key is in the built map exactly when some entry names it, and the last such entry wins. */
  lemma {:induction false} BuildLastWins(es: seq<Entry>, k: string)
    ensures k in Build(es) <==> LastWith(es, k) >= 0
    ensures k in Build(es) ==> Build(es)[k] == es[LastWith(es, k)].checked
  {
    if es != [] {
      BuildLastWins(es[..|es| - 1], k);
    }
  }

  /** Looking a key up after a run of entries that do not name it gives what it was before. */
  lemma {:induction false} BuildAppendOthers(a: seq<Entry>, b: seq<Entry>, k: string)
    requires forall j :: 0 <= j < |b| ==> b[j].key != k
    ensures Lookup(Build(a + b), k) == Lookup(Build(a), k)
  {
    if b != [] {
      assert (a + b)[..|a + b| - 1] == a + b[..|b| - 1];
      BuildAppendOthers(a, b[..|b| - 1], k);
    } else {
      assert a + b == a;
    }
  }

  /** The last assignment to a key decides what it reads back. */
  lemma BuildLastEntry(a: seq<Entry>, e: Entry, b: seq<Entry>)
    requires forall j :: 0 <= j < |b| ==> b[j].key != e.key
    ensures Lookup(Build(a + [e] + b), e.key) == e.checked
  {
    BuildAppendOthers(a + [e], b, e.key);
    assert (a + [e])[..|a + [e]| - 1] == a;
  }
}

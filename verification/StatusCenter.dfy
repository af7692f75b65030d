/** src/ui-layer/status-center.ts: the list of status entries, its index of pending entries and its index by key. */
module StatusCenters {
  import opened Wrappers
  import opened Sequences

  // ----- The graph of keys: an entry completes the entries with certain keys, and so on -----

  type KeyGraph = map<string, seq<string>>

  ghost predicate IsPath(g: KeyGraph, from: seq<string>, p: seq<string>) {
    && p != [] && p[0] in from
    && (forall i :: 0 <= i < |p| ==> p[i] in g)
    && (forall i :: 0 <= i < |p| - 1 ==> p[i + 1] in g[p[i]])
  }

  // Key k can be reached from one of the keys in from, along keys of g.
  ghost predicate Reachable(g: KeyGraph, from: seq<string>, k: string) {
    exists p :: IsPath(g, from, p) && p[|p| - 1] == k
  }

  ghost function ReachableKeys(g: KeyGraph, from: seq<string>): set<string> {
    set k | k in g && Reachable(g, from, k)
  }

  lemma ReachableAtOnce(g: KeyGraph, from: seq<string>, k: string)
    requires k in from && k in g
    ensures Reachable(g, from, k)
  {
    assert IsPath(g, from, [k]);
  }

  lemma ReachableNext(g: KeyGraph, from: seq<string>, k: string, next: string)
    requires Reachable(g, from, k) && k in g && next in g[k] && next in g
    ensures Reachable(g, from, next)
  {
    var p :| IsPath(g, from, p) && p[|p| - 1] == k;
    assert IsPath(g, from, p + [next]);
  }

  // A set of keys that holds the keys of from and is closed under following the graph.
  ghost predicate IsClosed(g: KeyGraph, from: seq<string>, done: set<string>) {
    && (forall k :: k in from && k in g ==> k in done)
    && (forall d, k :: d in done && d in g && k in g[d] && k in g ==> k in done)
  }

  lemma ClosedHoldsReachable(g: KeyGraph, from: seq<string>, done: set<string>, k: string)
    requires IsClosed(g, from, done) && Reachable(g, from, k)
    ensures k in done
  {
    var p :| IsPath(g, from, p) && p[|p| - 1] == k;
    PathStaysInClosed(g, from, done, p, |p| - 1);
  }

  lemma {:induction false} PathStaysInClosed(g: KeyGraph, from: seq<string>, done: set<string>, p: seq<string>, i: nat)
    requires IsClosed(g, from, done) && IsPath(g, from, p) && i < |p|
    ensures p[i] in done
    decreases i
  {
    if i == 0 {
    } else {
      PathStaysInClosed(g, from, done, p, i - 1);
      assert p[i - 1 + 1] in g[p[i - 1]];
    }
  }

  // The state of a worklist that follows the graph: done has been visited, keys is still to be.
  ghost predicate Frontier(g: KeyGraph, from: seq<string>, done: set<string>, keys: seq<string>) {
    && done <= g.Keys
    && (forall k :: k in done ==> Reachable(g, from, k))
    && (forall k :: k in keys && k in g ==> Reachable(g, from, k))
    && (forall k :: k in from && k in g ==> k in done || k in keys)
    && (forall d, k :: d in done && k in g[d] && k in g ==> k in done || k in keys)
  }

  lemma FrontierStarts(g: KeyGraph, from: seq<string>)
    ensures Frontier(g, from, {}, from)
  {
    forall k | k in from && k in g
      ensures Reachable(g, from, k)
    {
      ReachableAtOnce(g, from, k);
    }
  }

  lemma FrontierAdvances(g: KeyGraph, from: seq<string>, done: set<string>, keys: seq<string>, key: string)
    requires Frontier(g, from, done, keys + [key])
    ensures key in done || key !in g ==> Frontier(g, from, done, keys)
    ensures key in g ==> Frontier(g, from, done + {key}, keys + g[key])
  {
    assert forall k :: k in keys + [key] <==> k in keys || k == key;
    if key in g {
      forall k | k in g[key] && k in g
        ensures Reachable(g, from, k)
      {
        ReachableNext(g, from, key, k);
      }
    }
  }

  lemma FrontierEnds(g: KeyGraph, from: seq<string>, done: set<string>)
    requires Frontier(g, from, done, [])
    ensures done == ReachableKeys(g, from)
  {
    forall k | k in g && Reachable(g, from, k)
      ensures k in done
    {
      ClosedHoldsReachable(g, from, done, k);
    }
  }

  // ----- The list -----

  function IndexOf<T(==)>(list: seq<T>, e: T): (i: nat)
    ensures i <= |list|
    ensures i < |list| ==> list[i] == e && e !in list[..i]
    ensures i == |list| <==> e !in list
  {
    if list == [] || list[0] == e then 0 else 1 + IndexOf(list[1..], e)
  }

  function Without<T>(list: seq<T>, i: nat): seq<T>
    requires i < |list|
  {
    list[..i] + list[i + 1..]
  }

  // e goes to the end of the list, if it is in the list.
  function MovedToTop<T(==)>(list: seq<T>, e: T): (r: seq<T>)
    ensures |r| == |list|
  {
    var i := IndexOf(list, e);
    if i == |list| then list else
    Without(list, i) + [e]
  }

  ghost predicate SameMembers<T>(a: seq<T>, b: seq<T>) {
    (forall x :: x in a ==> x in b) && (forall x :: x in b ==> x in a)
  }

  lemma MovedHasSameMembers<T>(list: seq<T>, e: T)
    ensures SameMembers(MovedToTop(list, e), list)
  {
    var i := IndexOf(list, e);
    if i < |list| {
      assert list == list[..i] + [list[i]] + list[i + 1..];
    }
  }

  lemma {:induction false} MovedAllHasSameMembers<T>(list: seq<T>, es: seq<T>)
    ensures SameMembers(MovedAllToTop(list, es), list)
    decreases |es|
  {
    if es == [] {
    } else {
      MovedHasSameMembers(list, es[0]);
      MovedAllHasSameMembers(MovedToTop(list, es[0]), es[1..]);
    }
  }

  function MovedAllToTop<T(==)>(list: seq<T>, es: seq<T>): (r: seq<T>)
    ensures |r| == |list|
    decreases |es|
  {
    if es == [] then list else MovedAllToTop(MovedToTop(list, es[0]), es[1..])
  }

  lemma MovedAllUnfold<T>(list: seq<T>, es: seq<T>, i: nat)
    requires i < |es|
    ensures MovedAllToTop(list, es[i..]) == MovedAllToTop(MovedToTop(list, es[i]), es[i + 1..])
  {
    assert es[i..][0] == es[i] && es[i..][1..] == es[i + 1..];
  }

  // Room is made for one more entry by dropping the oldest one.
  function Trimmed<T>(list: seq<T>, max: nat): seq<T>
    requires 0 < max && |list| <= max
  {
    if |list| + 1 > max then list[1..] else list
  }

  ghost predicate Distinct<T>(s: seq<T>) {
    forall i, j :: 0 <= i < j < |s| ==> s[i] != s[j]
  }

  lemma DistinctTail<T>(s: seq<T>)
    requires Distinct(s) && s != []
    ensures s[0] !in s[1..] && Distinct(s[1..])
  {
  }

  lemma DistinctSnoc<T>(s: seq<T>, e: T)
    requires Distinct(s) && e !in s
    ensures Distinct(s + [e])
  {
  }

  // The members of s that are in es.
  function Among<T(==)>(s: seq<T>, es: seq<T>): (r: seq<T>)
    ensures forall x :: x in r ==> x in s && x in es
  {
    if s == [] then [] else
    var rest := Among(s[1..], es);
    if s[0] in es then [s[0]] + rest else rest
  }

  lemma {:induction false} AmongSameMembers<T>(s: seq<T>, es: seq<T>, fs: seq<T>)
    requires forall i :: 0 <= i < |s| ==> (s[i] in es <==> s[i] in fs)
    ensures Among(s, es) == Among(s, fs)
  {
    if s == [] {
    } else {
      AmongSameMembers(s[1..], es, fs);
    }
  }

  // The list without the first occurrence of each member of es.
  function WithoutFirsts<T(==)>(list: seq<T>, es: set<T>): seq<T>
    decreases |list|
  {
    if list == [] then []
    else if list[0] in es then WithoutFirsts(list[1..], es - {list[0]})
    else [list[0]] + WithoutFirsts(list[1..], es)
  }

  lemma {:induction false} WithoutNone<T>(list: seq<T>)
    ensures WithoutFirsts(list, {}) == list
  {
    if list == [] {
    } else {
      WithoutNone(list[1..]);
    }
  }

  lemma {:induction false} WithoutOne<T>(list: seq<T>, e: T)
    requires e in list
    ensures Without(list, IndexOf(list, e)) == WithoutFirsts(list, {e})
  {
    if list[0] == e {
      WithoutNone(list[1..]);
      assert {e} - {e} == {};
    } else {
      WithoutOne(list[1..], e);
    }
  }

  lemma {:induction false} WithoutMissing<T>(list: seq<T>, e: T)
    requires e !in list
    ensures WithoutFirsts(list, {e}) == list
  {
    if list == [] {
    } else {
      WithoutMissing(list[1..], e);
    }
  }

  lemma {:induction false} WithoutFirstsAppend<T>(list: seq<T>, e: T, es: set<T>)
    requires e !in es
    ensures WithoutFirsts(list + [e], es) == WithoutFirsts(list, es) + [e]
    decreases |list|
  {
    if list == [] {
      assert list + [e] == [e] && [e][1..] == [];
    } else {
      assert (list + [e])[1..] == list[1..] + [e];
      WithoutFirstsAppend(list[1..], e, if list[0] in es then es - {list[0]} else es);
    }
  }

  lemma {:induction false} WithoutFirstsTwice<T>(list: seq<T>, e: T, es: set<T>)
    requires e !in es
    ensures WithoutFirsts(WithoutFirsts(list, {e}), es) == WithoutFirsts(list, {e} + es)
    decreases |list|
  {
    if list == [] {
    } else if list[0] == e {
      WithoutNone(list[1..]);
      assert {e} - {e} == {} && {e} + es - {e} == es;
    } else {
      var es' := if list[0] in es then es - {list[0]} else es;
      var rest := WithoutFirsts(list[1..], {e});
      WithoutFirstsTwice(list[1..], e, es');
      assert ([list[0]] + rest)[1..] == rest;
      assert list[0] in es ==> {e} + es - {list[0]} == {e} + es';
    }
  }

  lemma MoveOneThenRest<T>(list: seq<T>, e: T, es: set<T>)
    requires e !in es
    ensures WithoutFirsts(MovedToTop(list, e), es) ==
            WithoutFirsts(list, {e} + es) + (if e in list then [e] else [])
  {
    WithoutFirstsTwice(list, e, es);
    if e in list {
      WithoutOne(list, e);
      WithoutFirstsAppend(WithoutFirsts(list, {e}), e, es);
    } else {
      WithoutMissing(list, e);
    }
  }

  ghost function Members<T>(s: seq<T>): set<T> {
    set x | x in s
  }

  // Completed entries end up on top, in the order they were completed; the others keep their order below them.
  lemma {:induction false} MovedAllIsStable<T>(list: seq<T>, es: seq<T>)
    requires Distinct(es)
    ensures MovedAllToTop(list, es) == WithoutFirsts(list, Members(es)) + Among(es, list)
    decreases |es|
  {
    if es == [] {
      WithoutNone(list);
      assert Members(es) == {};
    } else {
      var e, rest, list' := es[0], es[1..], MovedToTop(list, es[0]);
      var top := if e in list then [e] else [];
      DistinctTail(es);
      assert MovedAllToTop(list, es) == WithoutFirsts(list', Members(rest)) + Among(rest, list') by {
        MovedAllIsStable(list', rest);
      }
      assert WithoutFirsts(list', Members(rest)) == WithoutFirsts(list, Members(es)) + top by {
        assert Members(es) == {e} + Members(rest);
        MoveOneThenRest(list, e, Members(rest));
      }
      assert Among(es, list) == top + Among(rest, list') by {
        MovedHasSameMembers(list, e);
        AmongSameMembers(rest, list', list);
      }
      AppendAssoc(WithoutFirsts(list, Members(es)), top, Among(rest, list'));
    }
  }

  // ----- The entries and the center -----

  class StatusEntry {
    const hash: string
    const keysToComplete: seq<string>
    var key: Option<string>
    var isPending: bool

    constructor (hash: string, key: Option<string>, isPending: bool, keysToComplete: seq<string>)
      ensures this.hash == hash && this.key == key && this.isPending == isPending
      ensures this.keysToComplete == keysToComplete
    {
      this.hash, this.key, this.isPending, this.keysToComplete := hash, key, isPending, keysToComplete;
    }

    // Of the fields that are copied, the two that the center looks at.
    method OccuredAgain(entry: StatusEntry)
      modifies this
      ensures key == old(entry.key) && isPending == old(entry.isPending)
    {
      isPending := entry.isPending;
      key := entry.key;
    }
  }

  // Under which name an entry is pending: `key || hash`, where an empty key counts as none.
  function PendingName(key: Option<string>, hash: string): string {
    if key.Some? && key.value != "" then key.value else hash
  }

  function PendingApplied(pending: map<string, StatusEntry>, name: string, isPending: bool, entry: StatusEntry)
    : map<string, StatusEntry>
  {
    if isPending then pending[name := entry] else pending - {name}
  }

  // The keys among done, as names in the pending index.
  ghost function PendingNames(keyed: map<string, StatusEntry>, done: set<string>): set<string>
    requires done <= keyed.Keys
  {
    set k | k in done :: PendingName(Some(k), keyed[k].hash)
  }

  lemma PendingNamesAdd(keyed: map<string, StatusEntry>, done: set<string>, key: string)
    requires done <= keyed.Keys && key in keyed
    ensures PendingNames(keyed, done + {key}) == PendingNames(keyed, done) + {PendingName(Some(key), keyed[key].hash)}
  {
  }

  lemma RemoveOneMore<V>(m: map<string, V>, gone: set<string>, k: string)
    ensures m - gone - {k} == m - (gone + {k})
  {
  }

  ghost predicate OneKeyEach(all: map<string, StatusEntry>) {
    forall k, l :: k in all && l in all && all[k] == all[l] ==> k == l
  }

  // completed lists, once each, the entries with a key in done that were pending.
  ghost predicate ListsPending(all: map<string, StatusEntry>, were: map<string, bool>, done: set<string>,
                               completed: seq<StatusEntry>)
    requires all.Keys == were.Keys
  {
    && (forall k :: k in all ==> (all[k] in completed <==> k in done && were[k]))
    && (forall e :: e in completed ==> e in all.Values)
    && Distinct(completed)
  }

  lemma ListsPendingAdd(all: map<string, StatusEntry>, were: map<string, bool>, done: set<string>,
                        completed: seq<StatusEntry>, key: string)
    requires all.Keys == were.Keys && OneKeyEach(all)
    requires ListsPending(all, were, done, completed) && key in all && key !in done
    ensures ListsPending(all, were, done + {key}, if were[key] then completed + [all[key]] else completed)
  {
    if were[key] {
      DistinctSnoc(completed, all[key]);
    }
  }

  predicate Matches(e: StatusEntry, entry: StatusEntry)
    reads e, entry
  {
    e.hash == entry.hash || (entry.key.Some? && e.key == entry.key)
  }

  ghost function MatchIndex(list: seq<StatusEntry>, entry: StatusEntry): (i: nat)
    reads list, entry
    ensures i <= |list|
  {
    if list == [] || Matches(list[0], entry) then 0 else 1 + MatchIndex(list[1..], entry)
  }

  ghost function MatchToTop(list: seq<StatusEntry>, entry: StatusEntry): seq<StatusEntry>
    reads list, entry
  {
    var i := MatchIndex(list, entry);
    if i == |list| then list else Without(list, i) + [list[i]]
  }

  // A completed entry has lost its key, so what is found is the entry itself.
  lemma {:induction false} CompletedIsItsOnlyMatch(list: seq<StatusEntry>, entry: StatusEntry)
    requires entry.key == None && (forall e :: e in list && e.hash == entry.hash ==> e == entry)
    ensures MatchIndex(list, entry) == IndexOf(list, entry)
    ensures MatchToTop(list, entry) == MovedToTop(list, entry)
  {
    if list == [] {
    } else {
      CompletedIsItsOnlyMatch(list[1..], entry);
    }
  }

  lemma CompletedMovesItself(list: seq<StatusEntry>, all: seq<StatusEntry>, entry: StatusEntry)
    requires entry.key == None && entry in all && HashesIdentify(all)
    requires forall e :: e in list ==> e in all
    ensures MatchToTop(list, entry) == MovedToTop(list, entry)
  {
    CompletedIsItsOnlyMatch(list, entry);
  }

  // Hashes are drawn at random when entries are made; no two entries that meet have the same one.
  ghost predicate HashesIdentify(entries: seq<StatusEntry>) {
    forall a, b :: a in entries && b in entries && a.hash == b.hash ==> a == b
  }

  // Whether a pushed entry repeats one that the center has.
  ghost predicate Repeats(list: seq<StatusEntry>, keyed: map<string, StatusEntry>, key: Option<string>,
                          entry: StatusEntry)
  {
    if key.Some? then key.value in keyed else list != [] && list[|list| - 1].hash == entry.hash
  }

  predicate IsIndexed(keyed: map<string, StatusEntry>, key: Option<string>, entry: StatusEntry) {
    key.Some? && key.value in keyed && keyed[key.value] == entry
  }

  ghost function Remembered(keyed: map<string, StatusEntry>, key: Option<string>, entry: StatusEntry)
    : map<string, StatusEntry>
  {
    if key.Some? && key.value !in keyed then keyed[key.value := entry] else keyed
  }

  ghost function GraphOf(keyed: map<string, StatusEntry>): KeyGraph {
    map k | k in keyed :: keyed[k].keysToComplete
  }

  // ----- What a push does to the list and to the pending index -----

  // The entry that falls off the list when a new one is pushed onto a full one.
  ghost function Evicted(list: seq<StatusEntry>, completed: seq<StatusEntry>, isUpdated: bool, max: nat)
    : Option<StatusEntry>
    requires 0 < max
  {
    if !isUpdated && |list| == max then Some(MovedAllToTop(list, completed)[0]) else None
  }

  ghost function ListAfter(list: seq<StatusEntry>, completed: seq<StatusEntry>, isUpdated: bool, max: nat,
                           entry: StatusEntry): seq<StatusEntry>
    requires 0 < max && |list| <= max
  {
    var moved := MovedAllToTop(list, completed);
    if isUpdated then moved else Trimmed(moved, max) + [entry]
  }

  ghost function Forgotten(keyed: map<string, StatusEntry>, evicted: Option<StatusEntry>): map<string, StatusEntry>
    reads match evicted case None => {} case Some(e) => {e}
  {
    if evicted.Some? && evicted.value.key.Some? then keyed - {evicted.value.key.value} else keyed
  }

  ghost function Unfiled(pending: map<string, StatusEntry>, evicted: Option<StatusEntry>): map<string, StatusEntry> {
    if evicted.Some? then pending - {evicted.value.hash} else pending
  }

  // The entry is filed or removed, the completed ones are removed, and the evicted one is looked up by hash only.
  ghost function PendingAfter(pending: map<string, StatusEntry>, name: string, isPending: bool, entry: StatusEntry,
                              ended: set<string>, evicted: Option<StatusEntry>): map<string, StatusEntry>
  {
    Unfiled(PendingApplied(pending, name, isPending, entry) - ended, evicted)
  }

  ghost predicate AllListed(pending: map<string, StatusEntry>, list: seq<StatusEntry>) {
    forall n :: n in pending ==> pending[n] in list
  }

  // A keyed entry is pending under no other name than its key.
  ghost predicate FiledUnderKeys(pending: map<string, StatusEntry>, keyed: map<string, StatusEntry>) {
    forall n, k :: n in pending && k in keyed && pending[n] == keyed[k] ==> n == PendingName(Some(k), keyed[k].hash)
  }

  // b is pending under a name that is not its hash, and that the push neither refiles nor completes.
  ghost predicate PendingUnderKey(pending: map<string, StatusEntry>, b: StatusEntry, name: string, ended: set<string>) {
    exists n :: n in pending && pending[n] == b && n != b.hash && n != name && n !in ended
  }

  ghost function Unpended(keyed: map<string, StatusEntry>, were: map<string, bool>, done: set<string>): set<StatusEntry>
    requires done <= keyed.Keys == were.Keys
  {
    set k | k in done && were[k] :: keyed[k]
  }

  // A push takes a pending entry off the list, or never puts it there: when a pending entry with a known key
  // is pushed that is not itself in the list, or when the list is full and the oldest entry that is not completed
  // is pending under its key.
  ghost predicate LosesPending(list: seq<StatusEntry>, pending: map<string, StatusEntry>,
                               keyed: map<string, StatusEntry>, were: map<string, bool>, done: set<string>,
                               entry: StatusEntry, name: string, isPending: bool, isUpdated: bool, max: nat)
    requires done <= keyed.Keys == were.Keys
  {
    var ended := PendingNames(keyed, done);
    if isUpdated then isPending && name !in ended && entry !in list
    else
      && |list| == max
      && var below := WithoutFirsts(list, Unpended(keyed, were, done));
         && below != [] && below[0] != entry && below[0] !in below[1..]
         && PendingUnderKey(pending, below[0], name, ended)
  }

  lemma UpdateListsIff(list: seq<StatusEntry>, completed: seq<StatusEntry>, max: nat, entry: StatusEntry,
                       pending: map<string, StatusEntry>, name: string, isPending: bool, ended: set<string>)
    requires 0 < max && |list| <= max && AllListed(pending, list)
    ensures AllListed(PendingAfter(pending, name, isPending, entry, ended, None),
                      ListAfter(list, completed, true, max, entry))
       <==> !(isPending && name !in ended && entry !in list)
  {
    var after := PendingAfter(pending, name, isPending, entry, ended, None);
    MovedAllHasSameMembers(list, completed);
    if isPending && name !in ended {
      assert name in after && after[name] == entry;
    }
  }

  lemma AppendListsIff(list: seq<StatusEntry>, completed: seq<StatusEntry>, max: nat, entry: StatusEntry,
                       pending: map<string, StatusEntry>, name: string, isPending: bool, ended: set<string>)
    requires |list| < max && AllListed(pending, list)
    ensures AllListed(PendingAfter(pending, name, isPending, entry, ended, None),
                      ListAfter(list, completed, false, max, entry))
  {
    MovedAllHasSameMembers(list, completed);
  }

  lemma EvictionListsIff(list: seq<StatusEntry>, completed: seq<StatusEntry>, max: nat, entry: StatusEntry,
                         pending: map<string, StatusEntry>, name: string, isPending: bool, ended: set<string>)
    requires 0 < max == |list| && AllListed(pending, list)
    ensures var moved := MovedAllToTop(list, completed);
              AllListed(PendingAfter(pending, name, isPending, entry, ended, Some(moved[0])),
                        ListAfter(list, completed, false, max, entry))
              <==>
              !(moved[0] != entry && moved[0] !in moved[1..] && PendingUnderKey(pending, moved[0], name, ended))
  {
    var moved := MovedAllToTop(list, completed);
    var after := PendingAfter(pending, name, isPending, entry, ended, Some(moved[0]));
    var list' := ListAfter(list, completed, false, max, entry);
    assert list' == moved[1..] + [entry];
    MovedAllHasSameMembers(list, completed);
    if moved[0] != entry && moved[0] !in moved[1..] && PendingUnderKey(pending, moved[0], name, ended) {
      var n :| n in pending && pending[n] == moved[0] && n != moved[0].hash && n != name && n !in ended;
      assert n in after && after[n] == moved[0];
    } else {
      forall n | n in after
        ensures after[n] in list'
      {
        if after[n] != entry {
          assert n in pending && pending[n] == after[n] && n != name && n !in ended && n != moved[0].hash;
          assert after[n] in moved;
        }
      }
    }
  }

  // A push leaves a pending entry out of the list: a repeated one that is not itself in the list, or the one that
  // falls off, which is pending under another name than its hash.
  ghost predicate LeavesOut(list: seq<StatusEntry>, completed: seq<StatusEntry>, pending: map<string, StatusEntry>,
                            entry: StatusEntry, name: string, isPending: bool, ended: set<string>,
                            isUpdated: bool, max: nat)
    requires 0 < max
  {
    if isUpdated then isPending && name !in ended && entry !in list
    else
      && |list| == max
      && var moved := MovedAllToTop(list, completed);
         moved[0] != entry && moved[0] !in moved[1..] && PendingUnderKey(pending, moved[0], name, ended)
  }

  // After a push every pending entry is in the list, as it was before, unless the push leaves one out.
  lemma PushListsIff(list: seq<StatusEntry>, completed: seq<StatusEntry>, pending: map<string, StatusEntry>,
                     entry: StatusEntry, name: string, isPending: bool, ended: set<string>,
                     isUpdated: bool, max: nat)
    requires 0 < max && |list| <= max && AllListed(pending, list)
    ensures AllListed(PendingAfter(pending, name, isPending, entry, ended, Evicted(list, completed, isUpdated, max)),
                      ListAfter(list, completed, isUpdated, max, entry))
       <==> !LeavesOut(list, completed, pending, entry, name, isPending, ended, isUpdated, max)
  {
    if isUpdated {
      UpdateListsIff(list, completed, max, entry, pending, name, isPending, ended);
    } else if |list| < max {
      AppendListsIff(list, completed, max, entry, pending, name, isPending, ended);
    } else {
      EvictionListsIff(list, completed, max, entry, pending, name, isPending, ended);
    }
  }

  lemma CompletedAreUnpended(keyed: map<string, StatusEntry>, were: map<string, bool>, done: set<string>,
                             completed: seq<StatusEntry>)
    requires done <= keyed.Keys == were.Keys && ListsPending(keyed, were, done, completed)
    ensures Members(completed) == Unpended(keyed, were, done)
  {
  }

  // What was completed is pending under no name that is left.
  lemma CompletedNotPending(keyed: map<string, StatusEntry>, were: map<string, bool>, done: set<string>,
                            pending: map<string, StatusEntry>, b: StatusEntry, name: string)
    requires done <= keyed.Keys == were.Keys && FiledUnderKeys(pending, keyed)
    requires b in Unpended(keyed, were, done)
    ensures !PendingUnderKey(pending, b, name, PendingNames(keyed, done))
  {
  }

  // What is at the bottom of the list once the completed entries are on top.
  lemma BottomOf<T>(moved: seq<T>, below: seq<T>, top: seq<T>, out: set<T>)
    requires moved == below + top && moved != [] && forall x :: x in top ==> x in out
    ensures below == [] || below[0] in out ==> moved[0] in out
    ensures below != [] && below[0] !in out ==>
              moved[0] == below[0] && (moved[0] in moved[1..] <==> below[0] in below[1..])
  {
    if below == [] {
      assert moved[0] in top;
    } else {
      assert moved[1..] == below[1..] + top;
    }
  }

  lemma EvictionLosesIff(list: seq<StatusEntry>, pending: map<string, StatusEntry>,
                         keyed: map<string, StatusEntry>, were: map<string, bool>, done: set<string>,
                         completed: seq<StatusEntry>, entry: StatusEntry, name: string, isPending: bool, max: nat)
    requires 0 < max == |list| && done <= keyed.Keys == were.Keys
    requires FiledUnderKeys(pending, keyed) && ListsPending(keyed, were, done, completed)
    ensures var moved := MovedAllToTop(list, completed);
              LosesPending(list, pending, keyed, were, done, entry, name, isPending, false, max)
              <==>
              && moved[0] != entry && moved[0] !in moved[1..]
              && PendingUnderKey(pending, moved[0], name, PendingNames(keyed, done))
  {
    var moved, out := MovedAllToTop(list, completed), Unpended(keyed, were, done);
    CompletedAreUnpended(keyed, were, done, completed);
    MovedAllIsStable(list, completed);
    BottomOf(moved, WithoutFirsts(list, out), Among(completed, list), out);
    if moved[0] in out {
      CompletedNotPending(keyed, were, done, pending, moved[0], name);
    }
  }

  // Where keyed entries are pending under their keys, that can be told before the push.
  lemma LeavesOutIffLoses(list: seq<StatusEntry>, pending: map<string, StatusEntry>,
                          keyed: map<string, StatusEntry>, were: map<string, bool>, done: set<string>,
                          completed: seq<StatusEntry>, entry: StatusEntry, name: string, isPending: bool,
                          isUpdated: bool, max: nat)
    requires 0 < max && done <= keyed.Keys == were.Keys
    requires FiledUnderKeys(pending, keyed) && ListsPending(keyed, were, done, completed)
    ensures LeavesOut(list, completed, pending, entry, name, isPending, PendingNames(keyed, done), isUpdated, max)
       <==> LosesPending(list, pending, keyed, were, done, entry, name, isPending, isUpdated, max)
  {
    if !isUpdated && |list| == max {
      EvictionLosesIff(list, pending, keyed, were, done, completed, entry, name, isPending, max);
    }
  }

  // So after a push every pending entry is in the list, as it was before, unless the push loses one.
  lemma PendingStaysListedIff(list: seq<StatusEntry>, pending: map<string, StatusEntry>,
                              keyed: map<string, StatusEntry>, were: map<string, bool>, done: set<string>,
                              completed: seq<StatusEntry>, entry: StatusEntry, name: string, isPending: bool,
                              isUpdated: bool, max: nat)
    requires 0 < max && |list| <= max && AllListed(pending, list)
    requires done <= keyed.Keys == were.Keys
    requires FiledUnderKeys(pending, keyed) && ListsPending(keyed, were, done, completed)
    ensures AllListed(PendingAfter(pending, name, isPending, entry, PendingNames(keyed, done),
                                   Evicted(list, completed, isUpdated, max)),
                      ListAfter(list, completed, isUpdated, max, entry))
       <==> !LosesPending(list, pending, keyed, were, done, entry, name, isPending, isUpdated, max)
  {
    PushListsIff(list, completed, pending, entry, name, isPending, PendingNames(keyed, done), isUpdated, max);
    LeavesOutIffLoses(list, pending, keyed, were, done, completed, entry, name, isPending, isUpdated, max);
  }

  // Nor does a push file a keyed entry under a name that is not its key.
  lemma PushKeepsFiled(pending: map<string, StatusEntry>, keyed: map<string, StatusEntry>, done: set<string>,
                       key: Option<string>, entry: StatusEntry, isPending: bool, evicted: Option<StatusEntry>)
    requires FiledUnderKeys(pending, keyed) && done <= keyed.Keys
    requires forall k :: k in keyed && keyed[k] == entry ==> key == Some(k)
    ensures FiledUnderKeys(PendingAfter(pending, PendingName(key, entry.hash), isPending, entry,
                                        PendingNames(keyed, done), evicted),
                           keyed - done)
  {
  }

  class StatusCenter {
    const maxNotifications: nat
    var notifications: seq<StatusEntry>
    var pendingEntries: map<string, StatusEntry>
    var keyedEntries: map<string, StatusEntry>

    constructor (maxNotifications: nat)
      requires 0 < maxNotifications
      ensures Valid() && this.maxNotifications == maxNotifications
      ensures notifications == [] && pendingEntries == map[] && keyedEntries == map[]
    {
      this.maxNotifications := maxNotifications;
      notifications, pendingEntries, keyedEntries := [], map[], map[];
    }

    ghost predicate KeyedByOwnKey()
      reads this, keyedEntries.Values
    {
      forall k :: k in keyedEntries ==> keyedEntries[k].key == Some(k)
    }

    ghost predicate Valid()
      reads this, keyedEntries.Values
    {
      && 0 < maxNotifications && |notifications| <= maxNotifications
      && KeyedByOwnKey()
      && forall k :: k in keyedEntries ==> keyedEntries[k] in notifications
    }

    method ApplyPendingStatus(entry: StatusEntry) returns (wasPending: bool)
      modifies this`pendingEntries
      ensures var name := PendingName(entry.key, entry.hash);
              && wasPending == (name in old(pendingEntries))
              && pendingEntries == PendingApplied(old(pendingEntries), name, entry.isPending, entry)
    {
      var name := if entry.key.Some? && entry.key.value != "" then entry.key.value else entry.hash;
      wasPending := name in pendingEntries;
      if entry.isPending {
        pendingEntries := pendingEntries[name := entry];
      } else {
        pendingEntries := pendingEntries - {name};
      }
    }

    // Of the entries `all`, exactly those with a key in done have been completed; `were` tells which were
    // pending before, and `names` is the pending index as it was.
    ghost predicate Completed(all: map<string, StatusEntry>, were: map<string, bool>, names: map<string, StatusEntry>,
                              done: set<string>)
      reads this, all.Values
    {
      && all.Keys == were.Keys && done <= all.Keys
      && keyedEntries == all - done
      && pendingEntries == names - PendingNames(all, done)
      && (forall k :: k in all ==> all[k].key == if k in done then None else Some(k))
      && (forall k :: k in all ==> all[k].isPending == (k !in done && were[k]))
    }

    // The part of the loop below that takes an entry out of both indices.
    method CompleteEntry(key: string, desc: StatusEntry, ghost all: map<string, StatusEntry>,
                         ghost were: map<string, bool>, ghost names: map<string, StatusEntry>, ghost done: set<string>)
      requires Completed(all, were, names, done) && key in keyedEntries && keyedEntries[key] == desc
      modifies this`pendingEntries, this`keyedEntries, desc
      ensures Completed(all, were, names, done + {key})
    {
      assert forall k :: k in all && all[k] == desc ==> k == key;
      desc.isPending := false;
      var _ := ApplyPendingStatus(desc);
      if desc.key.Some? {
        keyedEntries := keyedEntries - {desc.key.value};
        desc.key := None;
      }
      PendingNamesAdd(all, done, key);
      RemoveOneMore(all, done, key);
      RemoveOneMore(names, PendingNames(all, done), PendingName(Some(key), desc.hash));
    }

    // done are the keys of `keyed` reachable from entry. Their entries have been un-keyed and un-pended, and
    // no others; completed lists those of them that were pending.
    ghost predicate CompletesReachable(keyed: map<string, StatusEntry>, were: map<string, bool>, entry: StatusEntry,
                                       done: set<string>, completed: seq<StatusEntry>)
      reads keyed.Values
    {
      && done <= keyed.Keys == were.Keys
      && done == ReachableKeys(GraphOf(keyed), entry.keysToComplete)
      && (forall k :: k in keyed ==> keyed[k].key == if k in done then None else Some(k))
      && (forall k :: k in keyed ==> keyed[k].isPending == (k !in done && were[k]))
      && ListsPending(keyed, were, done, completed)
    }

    // Completes every entry that can be reached from entry's keysToComplete, however the keys refer to each other.
    method CompleteEntryDescendants(entry: StatusEntry) returns (completed: seq<StatusEntry>, ghost done: set<string>)
      requires KeyedByOwnKey()
      modifies this`pendingEntries, this`keyedEntries, keyedEntries.Values
      ensures KeyedByOwnKey()
      ensures done <= old(keyedEntries).Keys
      ensures done == ReachableKeys(GraphOf(old(keyedEntries)), entry.keysToComplete)
      ensures var all := old(keyedEntries);
              var were := map k | k in all :: old(keyedEntries[k].isPending);
              Completed(all, were, old(pendingEntries), done) && ListsPending(all, were, done, completed)
    {
      ghost var all, names := keyedEntries, pendingEntries;
      ghost var were := map k | k in keyedEntries :: keyedEntries[k].isPending;
      ghost var g := GraphOf(all);
      var keys := entry.keysToComplete;
      completed, done := [], {};
      FrontierStarts(g, keys);
      while |keys| > 0
        invariant Frontier(g, entry.keysToComplete, done, keys)
        invariant Completed(all, were, names, done) && ListsPending(all, were, done, completed)
        decreases keyedEntries.Keys, |keys|
      {
        var key := keys[|keys| - 1];
        SplitLast(keys);
        keys := keys[..|keys| - 1];
        FrontierAdvances(g, entry.keysToComplete, done, keys, key);
        if key in keyedEntries {
          var desc := keyedEntries[key];
          ListsPendingAdd(all, were, done, completed, key);
          if desc.isPending {
            completed := completed + [desc];
          }
          CompleteEntry(key, desc, all, were, names, done);
          done := done + {key};
          keys := keys + desc.keysToComplete;
        }
      }
      FrontierEnds(g, entry.keysToComplete, done);
    }

    // Remembers a keyed entry, or updates the entry it repeats: the one with its key or, without a key, the top one.
    method TryUpdateExistingEntry(entry: StatusEntry) returns (updated: bool)
      requires KeyedByOwnKey() && HashesIdentify(notifications + [entry])
      modifies this`keyedEntries, entry, keyedEntries.Values
      ensures updated == Repeats(old(notifications), old(keyedEntries), old(entry.key), entry)
      ensures keyedEntries == Remembered(old(keyedEntries), old(entry.key), entry)
      ensures KeyedByOwnKey() && entry.isPending == old(entry.isPending)
      ensures forall e :: e in old(keyedEntries).Values || e == entry ==>
                && e.key == old(e.key)
                && e.isPending == if old(entry.key).Some? && old(entry.key).value in old(keyedEntries)
                                     && old(keyedEntries)[old(entry.key).value] == e
                                  then entry.isPending else old(e.isPending)
    {
      updated := false;
      if entry.key == None {
        var nEntries := |notifications|;
        if nEntries > 0 && notifications[nEntries - 1].hash == entry.hash {
          assert notifications[nEntries - 1] in notifications + [entry] && entry in notifications + [entry];
          notifications[nEntries - 1].OccuredAgain(entry);
          updated := true;
        }
        return;
      }
      var key := entry.key.value;
      if key !in keyedEntries {
        keyedEntries := keyedEntries[key := entry];
        return false;
      }
      keyedEntries[key].OccuredAgain(entry);
      return true;
    }

    method PushLimited(n: StatusEntry)
      requires 0 < maxNotifications && |notifications| <= maxNotifications
      modifies this`notifications, this`keyedEntries, this`pendingEntries
      ensures notifications == Trimmed(old(notifications), maxNotifications) + [n]
      ensures var full := |old(notifications)| == maxNotifications;
              && keyedEntries == (if full && old(notifications)[0].key.Some?
                                  then old(keyedEntries) - {old(notifications)[0].key.value} else old(keyedEntries))
              && pendingEntries == (if full then old(pendingEntries) - {old(notifications)[0].hash}
                                    else old(pendingEntries))
    {
      if |notifications| + 1 > maxNotifications {
        var removed := notifications[0];
        notifications := notifications[1..];
        if removed.key.Some? {
          keyedEntries := keyedEntries - {removed.key.value};
        }
        pendingEntries := pendingEntries - {removed.hash};
      }
      notifications := notifications + [n];
    }

    // Takes the first entry that matches to the end of the list.
    method MoveExistingEntryToTop(entry: StatusEntry)
      requires 0 < maxNotifications && |notifications| <= maxNotifications
      modifies this`notifications, this`keyedEntries, this`pendingEntries
      ensures notifications == MatchToTop(old(notifications), entry)
      ensures keyedEntries == old(keyedEntries) && pendingEntries == old(pendingEntries)
    {
      var currentIdx := 0;
      while currentIdx < |notifications| && !Matches(notifications[currentIdx], entry)
        invariant currentIdx <= |notifications|
        invariant MatchIndex(notifications, entry) == currentIdx + MatchIndex(notifications[currentIdx..], entry)
      {
        currentIdx := currentIdx + 1;
      }
      if currentIdx < |notifications| {
        var removed := notifications[currentIdx];
        notifications := notifications[..currentIdx] + notifications[currentIdx + 1..];
        PushLimited(removed);
      }
    }

    // The first two steps of PushEntry, which leave keys alone; were tells what is then pending.
    method UpdateEntry(entry: StatusEntry) returns (wasPending: bool, isUpdated: bool, ghost were: map<string, bool>)
      requires Valid() && HashesIdentify(notifications + [entry])
      modifies this`keyedEntries, this`pendingEntries, keyedEntries.Values, entry
      ensures wasPending == (PendingName(old(entry.key), entry.hash) in old(pendingEntries))
      ensures isUpdated == Repeats(notifications, old(keyedEntries), old(entry.key), entry)
      ensures keyedEntries == Remembered(old(keyedEntries), old(entry.key), entry) && KeyedByOwnKey()
      ensures pendingEntries == PendingApplied(old(pendingEntries), PendingName(old(entry.key), entry.hash),
                                               old(entry.isPending), entry)
      ensures entry.key == old(entry.key) && entry.isPending == old(entry.isPending)
      ensures were == map k | k in keyedEntries :: keyedEntries[k].isPending
      ensures forall k :: k in were ==>
                were[k] == if old(entry.key) == Some(k) then old(entry.isPending) else old(keyedEntries[k].isPending)
    {
      wasPending := ApplyPendingStatus(entry);
      isUpdated := TryUpdateExistingEntry(entry);
      were := map k | k in keyedEntries :: keyedEntries[k].isPending;
    }

    // The first three steps of PushEntry, which leave the list alone.
    method UpdateAndComplete(entry: StatusEntry)
      returns (wasPending: bool, isUpdated: bool, completed: seq<StatusEntry>,
               ghost keyed: map<string, StatusEntry>, ghost done: set<string>, ghost were: map<string, bool>)
      requires Valid() && HashesIdentify(notifications + [entry])
      modifies this`keyedEntries, this`pendingEntries, keyedEntries.Values, entry
      ensures wasPending == (PendingName(old(entry.key), entry.hash) in old(pendingEntries))
      ensures isUpdated == Repeats(notifications, old(keyedEntries), old(entry.key), entry)
      ensures keyed == Remembered(old(keyedEntries), old(entry.key), entry)
      ensures CompletesReachable(keyed, were, entry, done, completed)
      ensures forall k :: k in were ==>
                were[k] == if old(entry.key) == Some(k) then old(entry.isPending) else old(keyedEntries[k].isPending)
      ensures !IsIndexed(keyed, old(entry.key), entry) ==>
                entry.key == old(entry.key) && entry.isPending == old(entry.isPending)
      ensures && keyedEntries == keyed - done
              && pendingEntries == PendingApplied(old(pendingEntries), PendingName(old(entry.key), entry.hash),
                                                  old(entry.isPending), entry) - PendingNames(keyed, done)
      ensures KeyedByOwnKey() && forall e :: e in completed ==> e.key == None && e in notifications + [entry]
      ensures forall k :: k in keyedEntries ==>
                keyedEntries[k] in notifications || (!isUpdated && keyedEntries[k] == entry)
    {
      wasPending, isUpdated, were := UpdateEntry(entry);
      keyed := keyedEntries;
      assert entry in keyed.Values ==> IsIndexed(keyed, entry.key, entry);
      completed, done := CompleteEntryDescendants(entry);
    }

    // The flags are those of the event emitted for the entry; completed are the entries that this one
    // made non-pending. For the specification, keyed is the index with the entry in it, done are the keys
    // that are completed, and were tells what was pending.
    method PushEntry(entry: StatusEntry)
      returns (wasPending: bool, isUpdated: bool, completed: seq<StatusEntry>,
               ghost keyed: map<string, StatusEntry>, ghost done: set<string>, ghost were: map<string, bool>)
      requires Valid() && HashesIdentify(notifications + [entry])
      modifies this`notifications, this`keyedEntries, this`pendingEntries, keyedEntries.Values, entry
      ensures Valid()
      ensures wasPending == (PendingName(old(entry.key), entry.hash) in old(pendingEntries))
      ensures isUpdated == Repeats(old(notifications), old(keyedEntries), old(entry.key), entry)
      // exactly the entries reachable from this one are completed
      ensures keyed == Remembered(old(keyedEntries), old(entry.key), entry)
      ensures CompletesReachable(keyed, were, entry, done, completed)
      ensures forall k :: k in were ==>
                were[k] == if old(entry.key) == Some(k) then old(entry.isPending) else old(keyedEntries[k].isPending)
      ensures !IsIndexed(keyed, old(entry.key), entry) ==>
                entry.key == old(entry.key) && entry.isPending == old(entry.isPending)
      // they go to the top of the list, and a new entry on top of them; nothing but the completed keys is forgotten,
      // and the key of an entry that falls off the list; in the pending index that entry is looked up by hash only
      ensures var evicted := Evicted(old(notifications), completed, isUpdated, maxNotifications);
              && notifications == ListAfter(old(notifications), completed, isUpdated, maxNotifications, entry)
              && keyedEntries == Forgotten(keyed - done, evicted)
              && pendingEntries == PendingAfter(old(pendingEntries), PendingName(old(entry.key), entry.hash),
                                                old(entry.isPending), entry, PendingNames(keyed, done), evicted)
      // no keyed entry gets pending under another name
      ensures FiledUnderKeys(old(pendingEntries), keyed) ==> FiledUnderKeys(pendingEntries, keyedEntries)
      // if every pending entry was in the list, every one still is, unless this push loses one
      ensures old(AllListed(pendingEntries, notifications)) && FiledUnderKeys(old(pendingEntries), keyed) ==>
                (AllListed(pendingEntries, notifications) <==>
                 !LosesPending(old(notifications), old(pendingEntries), keyed, were, done, entry,
                               PendingName(old(entry.key), entry.hash), old(entry.isPending), isUpdated,
                               maxNotifications))
    {
      ghost var list, pending, key, isPending := notifications, pendingEntries, entry.key, entry.isPending;
      wasPending, isUpdated, completed, keyed, done, were := UpdateAndComplete(entry);
      FinishPush(entry, completed, isUpdated, keyed, done, were);
      if FiledUnderKeys(pending, keyed) {
        PushKeepsFiled(pending, keyed, done, key, entry, isPending,
                       Evicted(list, completed, isUpdated, maxNotifications));
        if AllListed(pending, list) {
          PendingStaysListedIff(list, pending, keyed, were, done, completed, entry, PendingName(key, entry.hash),
                                isPending, isUpdated, maxNotifications);
        }
      }
    }

    // The last two steps of PushEntry, which put the list in order.
    method FinishPush(entry: StatusEntry, completed: seq<StatusEntry>, isUpdated: bool,
                      ghost keyed: map<string, StatusEntry>, ghost done: set<string>, ghost were: map<string, bool>)
      requires CompletesReachable(keyed, were, entry, done, completed)
      requires 0 < maxNotifications && |notifications| <= maxNotifications && KeyedByOwnKey()
      requires HashesIdentify(notifications + [entry])
      requires forall e :: e in completed ==> e.key == None && e in notifications + [entry]
      requires forall k :: k in keyedEntries ==>
                 keyedEntries[k] in notifications || (!isUpdated && keyedEntries[k] == entry)
      modifies this`notifications, this`keyedEntries, this`pendingEntries
      ensures CompletesReachable(keyed, were, entry, done, completed)
      ensures Valid()
      ensures var evicted := Evicted(old(notifications), completed, isUpdated, maxNotifications);
              && notifications == ListAfter(old(notifications), completed, isUpdated, maxNotifications, entry)
              && keyedEntries == Forgotten(old(keyedEntries), evicted)
              && pendingEntries == Unfiled(old(pendingEntries), evicted)
    {
      MovedAllHasSameMembers(notifications, completed);
      MoveAllToTop(entry, completed);
      if !isUpdated {
        PushLimited(entry);
      }
    }

    // Moves a completed entry, one among all.
    method MoveCompletedToTop(entry: StatusEntry, ghost all: seq<StatusEntry>)
      requires 0 < maxNotifications && |notifications| <= maxNotifications
      requires entry.key == None && entry in all && HashesIdentify(all)
      requires forall e :: e in notifications ==> e in all
      modifies this`notifications, this`keyedEntries, this`pendingEntries
      ensures notifications == MovedToTop(old(notifications), entry)
      ensures keyedEntries == old(keyedEntries) && pendingEntries == old(pendingEntries)
      ensures forall e :: e in notifications ==> e in all
    {
      CompletedMovesItself(notifications, all, entry);
      MovedHasSameMembers(notifications, entry);
      MoveExistingEntryToTop(entry);
    }

    method MoveAllToTop(entry: StatusEntry, completed: seq<StatusEntry>)
      requires 0 < maxNotifications && |notifications| <= maxNotifications
      requires HashesIdentify(notifications + [entry])
      requires forall e :: e in completed ==> e.key == None && e in notifications + [entry]
      modifies this`notifications, this`keyedEntries, this`pendingEntries
      ensures notifications == MovedAllToTop(old(notifications), completed)
      ensures keyedEntries == old(keyedEntries) && pendingEntries == old(pendingEntries)
    {
      ghost var list, all := notifications, notifications + [entry];
      for i := 0 to |completed|
        invariant |notifications| <= maxNotifications
        invariant keyedEntries == old(keyedEntries) && pendingEntries == old(pendingEntries)
        invariant forall e :: e in notifications ==> e in all
        invariant MovedAllToTop(notifications, completed[i..]) == MovedAllToTop(list, completed)
      {
        var e := completed[i];
        assert e in completed;
        MovedAllUnfold(notifications, completed, i);
        MoveCompletedToTop(e, all);
      }
    }
  }

  // ----- Pending entries that are not in the list -----

  lemma SomeMember<T>(s: seq<T>)
    ensures s == [] || exists x :: x in s
  {
    assert s == [] || s[0] in s;
  }

  lemma NothingToComplete(keyed: map<string, StatusEntry>, were: map<string, bool>, done: set<string>,
                          completed: seq<StatusEntry>)
    requires keyed.Keys == were.Keys && done == ReachableKeys(GraphOf(keyed), [])
    requires ListsPending(keyed, were, done, completed)
    ensures done == {} && completed == [] && PendingNames(keyed, done) == {}
  {
    SomeMember(completed);
  }

  // The step of the runs below: an entry that completes nothing is pushed.
  method PushPlain(center: StatusCenter, entry: StatusEntry) returns (isUpdated: bool)
    requires center.Valid() && HashesIdentify(center.notifications + [entry])
    requires entry.keysToComplete == []
    modifies center, center.keyedEntries.Values, entry
    ensures center.Valid()
    ensures isUpdated == Repeats(old(center.notifications), old(center.keyedEntries), old(entry.key), entry)
    ensures old(entry.key) == None && entry !in old(center.keyedEntries).Values ==> entry.key == None
    ensures var evicted := Evicted(old(center.notifications), [], isUpdated, center.maxNotifications);
              && center.notifications ==
                   ListAfter(old(center.notifications), [], isUpdated, center.maxNotifications, entry)
              && center.keyedEntries == Forgotten(Remembered(old(center.keyedEntries), old(entry.key), entry), evicted)
              && center.pendingEntries ==
                   PendingAfter(old(center.pendingEntries), PendingName(old(entry.key), entry.hash),
                                old(entry.isPending), entry, {}, evicted)
  {
    var wasPending, completed;
    ghost var keyed, done, were;
    wasPending, isUpdated, completed, keyed, done, were := center.PushEntry(entry);
    NothingToComplete(keyed, were, done, completed);
  }

  // An entry pending under a key falls off a full list and stays pending.
  method EvictedStaysPending() returns (center: StatusCenter, evicted: StatusEntry, entry: StatusEntry)
    ensures center.notifications == [entry] && evicted != entry
    ensures center.pendingEntries == map["k" := evicted]
  {
    center := new StatusCenter(1);
    evicted := new StatusEntry("1", Some("k"), true, []);
    var isUpdated := PushPlain(center, evicted);
    entry := new StatusEntry("2", None, false, []);
    isUpdated := PushPlain(center, entry);
  }

  // An entry with a known key becomes the pending one under that key, and never gets into the list.
  method RepeatedIsPendingUnlisted() returns (center: StatusCenter, first: StatusEntry, repeated: StatusEntry)
    ensures center.notifications == [first] && first != repeated
    ensures center.pendingEntries == map["k" := repeated]
  {
    center := new StatusCenter(1);
    first := new StatusEntry("1", Some("k"), true, []);
    var isUpdated := PushPlain(center, first);
    repeated := new StatusEntry("2", Some("k"), true, []);
    isUpdated := PushPlain(center, repeated);
  }

  // ----- Pushing the same entry again -----

  // An entry without a key pushed twice in a row is listed once, ...
  method SameEntryTwice() returns (center: StatusCenter, entry: StatusEntry, again: bool)
    ensures center.notifications == [entry] && again
  {
    center := new StatusCenter(3);
    entry := new StatusEntry("1", None, false, []);
    var first := PushPlain(center, entry);
    again := PushPlain(center, entry);
  }

  // ... with another one in between it is listed twice, ...
  method AnotherInBetween() returns (center: StatusCenter, entry: StatusEntry, other: StatusEntry)
    ensures center.notifications == [entry, other, entry] && entry != other
  {
    center := new StatusCenter(3);
    entry := new StatusEntry("1", None, false, []);
    other := new StatusEntry("2", None, false, []);
    var again := PushPlain(center, entry);
    again := PushPlain(center, other);
    again := PushPlain(center, entry);
  }

  method KeyedThenAnother() returns (center: StatusCenter, entry: StatusEntry, other: StatusEntry)
    ensures fresh(center) && center.Valid() && center.maxNotifications == 3
    ensures fresh(entry) && fresh(other) && entry != other && entry.hash == "1" && other.hash == "2"
    ensures center.notifications == [entry, other] && center.keyedEntries == map["k" := entry]
  {
    center := new StatusCenter(3);
    entry := new StatusEntry("1", Some("k"), false, []);
    other := new StatusEntry("2", None, false, []);
    var again := PushPlain(center, entry);
    again := PushPlain(center, other);
  }

  // ... and one with a key is found by its key, whatever has been pushed since.
  method KeyedIsFoundAgain() returns (center: StatusCenter, entry: StatusEntry, other: StatusEntry, again: bool)
    ensures center.notifications == [entry, other] && entry != other && again
    ensures center.keyedEntries == map["k" := entry]
  {
    center, entry, other := KeyedThenAnother();
    var repeated := new StatusEntry("3", Some("k"), false, []);
    again := PushPlain(center, repeated);
  }

  // Pending under a key ends with the next entry of that key that is not pending, ...
  method NoLongerPending() returns (center: StatusCenter, entry: StatusEntry)
    ensures center.notifications == [entry] && center.pendingEntries == map[]
  {
    center := new StatusCenter(3);
    entry := new StatusEntry("1", Some("k"), true, []);
    var again := PushPlain(center, entry);
    var done := new StatusEntry("2", Some("k"), false, []);
    again := PushPlain(center, done);
  }

  // ... and an empty key is none, as far as that goes.
  method EmptyKeyIsNoName() returns (center: StatusCenter, entry: StatusEntry)
    ensures entry.hash == "1" && center.notifications == [entry]
    ensures center.pendingEntries == map["1" := entry] && center.keyedEntries == map["" := entry]
  {
    center := new StatusCenter(3);
    entry := new StatusEntry("1", Some(""), true, []);
    var again := PushPlain(center, entry);
  }
}

/**
 * What the agent-session and query routers do with the pointers a model
 * reply selects. Both index the project's committed pointers by id, walk
 * the reply's `selectedPointers`, and keep each entry whose truthy `id`
 * names a committed pointer, together with the entry's `reason`. The walk
 * raises on an entry that is not an object, on an unhashable id and on a
 * value that cannot be iterated.
 */
module Selection {
  import opened Wrappers
  import opened JsonValue

  // ---------------------------------------------------------------------
  // The committed-pointer lookup
  // ---------------------------------------------------------------------

  /** The keys of a list of records, in order. */
  function Keys<T>(items: seq<T>, key: T -> string): (r: seq<string>)
    ensures |r| == |items|
    ensures forall i :: 0 <= i < |items| ==> r[i] == key(items[i])
  {
    seq(|items|, i requires 0 <= i < |items| => key(items[i]))
  }

  /** The dictionary filled by `lookup[key(x)] = x` over the records: a later record wins over an earlier one. */
  function LookupOf<T>(items: seq<T>, key: T -> string): map<string, T>
    decreases |items|
  {
    if items == [] then map[]
    else
      var last := items[|items| - 1];
      LookupOf(items[..|items| - 1], key)[key(last) := last]
  }

  /** The lookup holds exactly the ids of the records, and maps each to a record that carries it. */
  lemma {:induction false} LookupFacts<T>(items: seq<T>, key: T -> string)
    ensures forall k :: k in LookupOf(items, key) <==> k in Keys(items, key)
    ensures forall k :: k in LookupOf(items, key) ==> LookupOf(items, key)[k] in items && key(LookupOf(items, key)[k]) == k
    decreases |items|
  {
    if items != [] {
      var prefix := items[..|items| - 1];
      LookupFacts(prefix, key);
      assert Keys(items, key) == Keys(prefix, key) + [key(items[|items| - 1])];
      forall x | x in prefix ensures x in items {
        var j :| 0 <= j < |prefix| && prefix[j] == x;
        assert items[j] == x;
      }
    }
  }

  predicate DistinctKeys<T>(items: seq<T>, key: T -> string) {
    forall i, j :: 0 <= i < j < |items| ==> key(items[i]) != key(items[j])
  }

  /** With distinct ids, every record is found under its own id. */
  lemma {:induction false} LookupFinds<T>(items: seq<T>, key: T -> string)
    requires DistinctKeys(items, key)
    ensures forall i :: 0 <= i < |items| ==> key(items[i]) in LookupOf(items, key) && LookupOf(items, key)[key(items[i])] == items[i]
    decreases |items|
  {
    if items != [] {
      var prefix := items[..|items| - 1];
      LookupFinds(prefix, key);
      forall i | 0 <= i < |items| - 1
        ensures key(items[i]) in LookupOf(items, key) && LookupOf(items, key)[key(items[i])] == items[i]
      {
        assert prefix[i] == items[i];
      }
    }
  }

  /** The loop that fills `pointer_lookup`. */
  method BuildLookup<T>(items: seq<T>, key: T -> string) returns (lookup: map<string, T>)
    ensures lookup == LookupOf(items, key)
  {
    lookup := map[];
    for i := 0 to |items|
      invariant lookup == LookupOf(items[..i], key)
    {
      assert items[..i + 1][..i] == items[..i];
      lookup := lookup[key(items[i]) := items[i]];
    }
    assert items[..|items|] == items;
  }

  // ---------------------------------------------------------------------
  // The walk over the selected entries
  // ---------------------------------------------------------------------

  /** One kept entry: its position among all selected entries, the pointer id, and the reason given. */
  datatype Hit = Hit(index: nat, id: string, reason: Json)

  /** The `TypeError` message of a `for` loop over a value that cannot be iterated. */
  function NotIterable(j: Json): string {
    "'" + TypeName(j) + "' object is not iterable"
  }

  /** The `TypeError` message of `in` on a dictionary with a list or dict as the key. */
  function Unhashable(j: Json): string {
    "unhashable type: '" + TypeName(j) + "'"
  }

  /**
   * One entry at position `index`: `.get` fails on a non-object; a falsy
   * id is skipped before the membership test; a list or dict id cannot be
   * hashed; a string id known to the lookup is kept, and anything else
   * (an unknown string, a number, `true`) is skipped.
   */
  function Step(entry: Json, index: nat, known: set<string>): (r: Result<Option<Hit>, string>)
    ensures r.Success? && r.value.Some? ==>
      entry.JObj? && Get(entry.fields, "id", JNull) == JStr(r.value.value.id) && r.value.value.id in known
      && r.value.value == Hit(index, r.value.value.id, Get(entry.fields, "reason", JStr("")))
    ensures r.Failure? <==>
      !entry.JObj? || (Truthy(Get(entry.fields, "id", JNull)) && (Get(entry.fields, "id", JNull).JArr? || Get(entry.fields, "id", JNull).JObj?))
  {
    if !entry.JObj? then Failure(NoGetMessage(entry))
    else
      var id := Get(entry.fields, "id", JNull);
      if !Truthy(id) then Success(None)
      else if id.JArr? || id.JObj? then Failure(Unhashable(id))
      else if id.JStr? && id.s in known then Success(Some(Hit(index, id.s, Get(entry.fields, "reason", JStr("")))))
      else Success(None)
  }

  /** The loop over a list of entries, stopped by the first entry that raises. */
  function Hits(entries: seq<Json>, known: set<string>): Result<seq<Hit>, string>
    decreases |entries|
  {
    if entries == [] then Success([])
    else
      var n := |entries| - 1;
      match Hits(entries[..n], known)
      case Failure(m) => Failure(m)
      case Success(hs) =>
        match Step(entries[n], n, known)
        case Failure(m) => Failure(m)
        case Success(None) => Success(hs)
        case Success(Some(h)) => Success(hs + [h])
  }

  /**
   * The loop over whatever the reply holds under `selectedPointers`.
   * Iterating a string yields its characters and iterating a dictionary
   * its keys, so a non-empty string or dictionary fails at `.get` on its
   * first item; `None`, a number or a boolean cannot be iterated at all.
   */
  function HitsOf(selected: Json, known: set<string>): (r: Result<seq<Hit>, string>)
    ensures selected.JArr? ==> r == Hits(selected.items, known)
    ensures selected == JArr([]) ==> r == Success([])
    ensures r.Success? ==> selected.JArr? || selected == JStr("") || selected == JObj(map[])
  {
    match selected
    case JArr(items) => Hits(items, known)
    case JStr(s) => if s == [] then Success([]) else Failure(NoGetMessage(JStr([s[0]])))
    case JObj(f) => if f == map[] then Success([]) else Failure(NoGetMessage(JStr("")))
    case _ => Failure(NotIterable(selected))
  }

  /** The positions of the kept entries. */
  function Indices(hs: seq<Hit>): (r: seq<nat>)
    ensures |r| == |hs|
    ensures forall k :: 0 <= k < |hs| ==> r[k] == hs[k].index
  {
    seq(|hs|, k requires 0 <= k < |hs| => hs[k].index)
  }

  /** Whether an entry names a committed pointer by a non-empty string id. */
  predicate Names(entry: Json, known: set<string>) {
    entry.JObj? && Get(entry.fields, "id", JNull).JStr?
    && Get(entry.fields, "id", JNull).s != "" && Get(entry.fields, "id", JNull).s in known
  }

  /**
   * Every kept entry names a committed pointer and carries its entry's
   * reason, and the kept entries are in the order the reply gave them.
   */
  lemma {:induction false} HitsSound(entries: seq<Json>, known: set<string>)
    requires Hits(entries, known).Success?
    ensures forall h :: h in Hits(entries, known).value ==>
      h.index < |entries| && Names(entries[h.index], known) && JStr(h.id) == Get(entries[h.index].fields, "id", JNull)
      && h.reason == Get(entries[h.index].fields, "reason", JStr(""))
    ensures forall a, b :: 0 <= a < b < |Hits(entries, known).value| ==>
      Hits(entries, known).value[a].index < Hits(entries, known).value[b].index
    decreases |entries|
  {
    if entries != [] {
      var n := |entries| - 1;
      var prefix := entries[..n];
      HitsSound(prefix, known);
      forall h | h in Hits(prefix, known).value ensures entries[h.index] == prefix[h.index] { }
    }
  }

  /** Every entry that names a committed pointer is kept. */
  lemma {:induction false} HitsComplete(entries: seq<Json>, known: set<string>)
    requires Hits(entries, known).Success?
    ensures forall i :: 0 <= i < |entries| && Names(entries[i], known) ==> i in Indices(Hits(entries, known).value)
    decreases |entries|
  {
    if entries != [] {
      var n := |entries| - 1;
      var prefix := entries[..n];
      HitsComplete(prefix, known);
      var hs := Hits(prefix, known).value;
      assert forall i :: 0 <= i < n ==> entries[i] == prefix[i];
      var r := Hits(entries, known).value;
      assert forall k :: 0 <= k < |hs| ==> r[k] == hs[k];
      forall i | 0 <= i < n && Names(entries[i], known) ensures i in Indices(r) {
        var k :| 0 <= k < |hs| && Indices(hs)[k] == i;
        assert Indices(r)[k] == i;
      }
      if Names(entries[n], known) {
        assert Indices(r)[|r| - 1] == n;
      }
    }
  }

  /** Every id the walk keeps is one of the known ids. */
  lemma HitsKnown(selected: Json, known: set<string>)
    ensures HitsOf(selected, known).Success? ==> forall h :: h in HitsOf(selected, known).value ==> h.id in known
  {
    if selected.JArr? && HitsOf(selected, known).Success? {
      HitsSound(selected.items, known);
    }
  }

  /** The walk fails exactly when some entry raises. */
  lemma {:induction false} HitsFailIff(entries: seq<Json>, known: set<string>)
    ensures Hits(entries, known).Failure? <==> exists i :: 0 <= i < |entries| && Step(entries[i], i, known).Failure?
    decreases |entries|
  {
    if entries != [] {
      var n := |entries| - 1;
      var prefix := entries[..n];
      HitsFailIff(prefix, known);
      assert forall i :: 0 <= i < n ==> entries[i] == prefix[i];
      if Hits(prefix, known).Failure? {
        var i :| 0 <= i < n && Step(prefix[i], i, known).Failure?;
        assert Step(entries[i], i, known).Failure?;
      }
    }
  }

  /** Once the walk has failed, later entries change nothing. */
  lemma {:induction false} HitsFailureStays(entries: seq<Json>, n: nat, known: set<string>)
    requires n <= |entries| && Hits(entries[..n], known).Failure?
    ensures Hits(entries, known) == Hits(entries[..n], known)
    decreases |entries| - n
  {
    if n < |entries| {
      assert entries[..n + 1][..n] == entries[..n];
      HitsFailureStays(entries, n + 1, known);
    } else {
      assert entries[..n] == entries;
    }
  }

  /** The loop over the entries, returning at the first that raises. */
  method CollectHits(entries: seq<Json>, known: set<string>) returns (r: Result<seq<Hit>, string>)
    ensures r == Hits(entries, known)
  {
    var hs: seq<Hit> := [];
    for i := 0 to |entries|
      invariant Hits(entries[..i], known) == Success(hs)
    {
      assert entries[..i + 1][..i] == entries[..i];
      var step := Step(entries[i], i, known);
      if step.Failure? {
        HitsFailureStays(entries, i + 1, known);
        return Failure(step.error);
      }
      if step.value.Some? {
        hs := hs + [step.value.value];
      }
    }
    assert entries[..|entries|] == entries;
    return Success(hs);
  }
}

/** A tree of reporters, flattened to records for a plugin and rebuilt there.

    Reporters are named by their address; records refer to each other by it. Rebuilding keeps, for
    every address, the reporter made for it, so the new objects are named by the same addresses. */
module Codec {
  import opened Options

  /** What is copied as it is. */
  datatype Fields = Fields(
    name: string, goTestName: string, depth: nat, skipped: bool, isParallel: bool, testing: bool,
    retryable: bool, noFailurePropagation: bool)

  const NO_FIELDS := Fields("", "", 0, false, false, false, false, false)

  datatype Reporter = Reporter(
    parent: Option<nat>, children: seq<nat>, failed: bool, logs: seq<string>, fields: Fields)
  {
    predicate Propagates() {
      !fields.retryable && !fields.noFailurePropagation
    }
  }

  /** Reporters by address, and records by the address they were made for. A record holds what a
      reporter does, as reporters refer to each other by address here anyway. */
  type Graph = map<nat, Reporter>

  /** Parents and children are there. */
  predicate Closed(g: Graph, ids: set<nat>) {
    forall id <- ids :: id in g &&
      (g[id].parent.Some? ==> g[id].parent.value in ids) && (forall c <- g[id].children :: c in ids)
  }

  /** Reporter `id` lists `c`: its own subtest, or one that belongs to an attempt of it. */
  predicate Lists(g: Graph, id: nat, c: nat) {
    && c in g && !g[c].fields.retryable && g[c].parent.Some?
    && (g[c].parent.value == id ||
        (var attempt := g[c].parent.value;
         attempt in g && g[attempt].fields.retryable && g[attempt].parent == Some(id) && c in g[attempt].children))
  }

  /** A graph of reporters. Children point back to the reporter that lists them, though one that still
      runs need not be listed yet, or to the attempt of it that made them, which lists them as well.
      Nobody lists attempts, and nobody is above itself. */
  ghost predicate WellFormed(g: Graph, rank: nat -> nat) {
    && Closed(g, g.Keys)
    && (forall id <- g, c <- g[id].children :: Lists(g, id, c))
    && (forall id <- g :: g[id].parent.Some? ==> rank(g[id].parent.value) < rank(id))
  }

  /** Failures have reached the parents, and those who list the failed test. */
  predicate Propagated(g: Graph) {
    && (forall id <- g :: g[id].failed && g[id].Propagates() && g[id].parent.Some? ==>
          g[id].parent.value in g && g[g[id].parent.value].failed)
    && (forall id <- g, c <- g[id].children :: c in g && g[c].failed && g[c].Propagates() ==> g[id].failed)
  }

  /** The retried test that lists a subtest of its attempt. */
  function Adopter(g: Graph, k: nat): Option<nat> {
    if k in g && g[k].parent.Some? && g[k].parent.value in g then
      var up := g[g[k].parent.value].parent;
      if up.Some? && up.value in g && k in g[up.value].children then up else None
    else None
  }

  /** The reporter whose children lead to this one. */
  function Over(g: Graph, k: nat): Option<nat>
    requires k in g
  {
    if Adopter(g, k).Some? then Adopter(g, k) else g[k].parent
  }

  /** A reporter and those above it. */
  ghost function Above(g: Graph, rank: nat -> nat, k: nat): (path: set<nat>)
    requires WellFormed(g, rank) && k in g
    ensures k in path && path <= g.Keys && forall x <- path :: rank(x) <= rank(k)
    ensures forall x <- path :: g[x].parent.Some? ==> g[x].parent.value in path
    decreases rank(k)
  {
    if g[k].parent.Some? then {k} + Above(g, rank, g[k].parent.value) else {k}
  }

  predicate UpClosed(g: Graph, path: set<nat>) {
    forall x <- path :: x in g && (g[x].parent.Some? ==> g[x].parent.value in path)
  }

  lemma FailsAbove(g: Graph, rank: nat -> nat, id: nat, parent: nat)
    requires WellFormed(g, rank) && Propagated(g) && id in g && g[id].failed && g[id].Propagates()
    requires g[id].parent == Some(parent) || Adopter(g, id) == Some(parent)
    ensures parent in g && g[parent].failed && rank(parent) < rank(id)
  {
  }

  /** The parent that a reporter gets when the graph is rebuilt from a reporter below those in `path`:
      a subtest of an attempt goes to the retried test, unless its attempt is in the path. */
  function RestoredParent(g: Graph, path: set<nat>, k: nat): Option<nat>
    requires k in g
  {
    if Adopter(g, k).Some? && g[k].parent.Some? && g[k].parent.value !in path then Adopter(g, k) else g[k].parent
  }

  /** `after` adds to `before` no more than what `from` leads to. */
  ghost predicate Within(g: Graph, from: nat, before: set<nat>, after: set<nat>) {
    forall s: set<nat> :: Closed(g, s) && from in s ==> after <= before + s
  }

  lemma WithinTwice(g: Graph, from: nat, a: set<nat>, b: set<nat>, c: set<nat>)
    requires Within(g, from, a, b) && Within(g, from, b, c)
    ensures Within(g, from, a, c)
  {
    forall s: set<nat> | Closed(g, s) && from in s ensures c <= a + s {
      assert b <= a + s && c <= b + s;
    }
  }

  /** The first `k` children are among `ids`. */
  predicate Listed(children: seq<nat>, k: nat, ids: set<nat>) {
    forall i | 0 <= i < k && i < |children| :: children[i] in ids
  }

  lemma ListedTwice(children: seq<nat>, k: nat, a: set<nat>, b: set<nat>)
    requires Listed(children, k, a) && a <= b && k < |children| && children[k] in b
    ensures Listed(children, k + 1, b)
  {
  }

  class Serializer {
    const graph: Graph
    var records: Graph

    constructor (graph: Graph)
      ensures this.graph == graph && records == map[]
    {
      this.graph, records := graph, map[];
    }

    /** The records made so far; those in `pending` are yet to get their parent and children. */
    ghost predicate Valid(pending: set<nat>)
      reads this
    {
      && Closed(graph, graph.Keys)
      && pending <= records.Keys <= graph.Keys
      && forall id <- records :: id !in pending ==> Complete(id)
    }

    ghost predicate Complete(id: nat)
      requires Closed(graph, graph.Keys) && id in graph
      reads this
    {
      && id in records && records[id] == graph[id]
      && (graph[id].parent.Some? ==> graph[id].parent.value in records)
      && (forall c <- graph[id].children :: c in records)
    }

    /** The records have grown by what a reporter leads to; those in `kept` have not changed. */
    ghost predicate Grown(before: Graph, from: nat, kept: set<nat>)
      requires kept <= before.Keys
      reads this
    {
      && before.Keys <= records.Keys
      && (forall k <- kept :: records[k] == before[k])
      && Within(graph, from, before.Keys, records.Keys)
    }

    /** Records a reporter and all that it leads to, once. */
    method ToSerializable(id: nat, ghost pending: set<nat>)
      requires Valid(pending) && id in graph
      modifies this`records
      ensures Valid(pending) && Grown(old(records), id, pending) && id in records
      decreases graph.Keys - records.Keys, 0
    {
      if id in records {
        return;
      }
      var r := graph[id];
      records := records[id := r.(parent := None, children := [])];
      assert id !in graph.Keys - records.Keys;
      RecordParent(id, pending);
      RecordChildren(id, pending);
    }

    method RecordParent(id: nat, ghost pending: set<nat>)
      requires Valid(pending + {id}) && id !in pending
      requires records[id] == graph[id].(parent := None, children := [])
      modifies this`records
      ensures Valid(pending + {id}) && Grown(old(records), id, pending)
      ensures records[id] == graph[id].(children := [])
      ensures graph[id].parent.Some? ==> graph[id].parent.value in records
      decreases graph.Keys - records.Keys, 1
    {
      var parent := graph[id].parent;
      if parent.Some? {
        ToSerializable(parent.value, pending + {id});
        records := records[id := records[id].(parent := parent)];
      }
    }

    method RecordChild(id: nat, k: nat, ghost pending: set<nat>)
      requires Valid(pending + {id}) && id !in pending && k < |graph[id].children|
      requires records[id] == graph[id].(children := graph[id].children[..k])
      modifies this`records
      ensures Valid(pending + {id}) && Grown(old(records), id, pending)
      ensures records[id] == graph[id].(children := graph[id].children[..k + 1])
      ensures graph[id].children[k] in records
      decreases graph.Keys - records.Keys, 1
    {
      var child := graph[id].children[k];
      ToSerializable(child, pending + {id});
      records := records[id := records[id].(children := records[id].children + [child])];
      assert graph[id].children[..k + 1] == graph[id].children[..k] + [child];
    }

    method RecordChildren(id: nat, ghost pending: set<nat>)
      requires Valid(pending + {id}) && id !in pending
      requires records[id] == graph[id].(children := [])
      requires graph[id].parent.Some? ==> graph[id].parent.value in records
      modifies this`records
      ensures Valid(pending) && Grown(old(records), id, pending)
      decreases graph.Keys - records.Keys, 2
    {
      var children := graph[id].children;
      for k := 0 to |children|
        invariant Valid(pending + {id})
        invariant old(records.Keys) <= records.Keys
        invariant forall k <- pending :: records[k] == old(records[k])
        invariant Within(graph, id, old(records.Keys), records.Keys)
        invariant records[id] == graph[id].(children := children[..k])
        invariant Listed(children, k, records.Keys)
      {
        ghost var before := records.Keys;
        RecordChild(id, k, pending);
        WithinTwice(graph, id, old(records.Keys), before, records.Keys);
        ListedTwice(children, k, before, records.Keys);
      }
      assert children[..|children|] == children;
    }
  }

  /** A reporter that has just been made. */
  const NEW := Reporter(None, [], false, [], NO_FIELDS)

  /** A reporter that waits for its parent. Failures may reach it when it is an attempt, and do not
      leave it. */
  predicate Blank(records: Graph, objects: Graph, id: nat)
    requires id in objects && id in records
  {
    var o := objects[id];
    && o.children == [] && o.logs == [] && (o.failed ==> records[id].failed)
    && (records[id].fields.retryable ==> o.parent.None?)
  }

  /** The parent of a reporter has been rebuilt, or is an attempt that waits for its own. */
  predicate ParentKnown(records: Graph, objects: Graph, id: nat, blank: set<nat>)
    requires id in records
  {
    records[id].parent.Some? ==>
      && records[id].parent.value in objects && records[id].parent.value in records
      && (records[id].parent.value in blank ==> records[records[id].parent.value].fields.retryable)
  }

  /** A rebuilt reporter whose fields and parent have been set. */
  predicate Settled(records: Graph, objects: Graph, id: nat, blank: set<nat>)
    requires id in objects && id in records
  {
    var o := objects[id];
    && o.fields == records[id].fields
    && (o.parent == records[id].parent || (o.parent.Some? && o.parent == Adopter(records, id)))
    && (records[id].parent.Some? ==> o.parent.Some? && records[id].parent.value in objects)
    && (o.parent.Some? ==>
          && o.parent.value in objects && o.parent.value in records
          && (o.parent.value in blank ==> records[o.parent.value].fields.retryable))
  }

  /** What a failure may reach. */
  predicate Reachable(records: Graph, objects: Graph, k: nat, blank: set<nat>)
    requires k in objects && k in records
  {
    if k in blank then Blank(records, objects, k) else Settled(records, objects, k, blank)
  }

  predicate AllReachable(records: Graph, objects: Graph, blank: set<nat>, ids: set<nat>)
    requires ids <= objects.Keys && objects.Keys <= records.Keys
  {
    forall k {:trigger Reachable(records, objects, k, blank)} | k in ids :: Reachable(records, objects, k, blank)
  }

  /** A reporter is as before, or has failed as recorded. */
  predicate FailedAtMost(records: Graph, before: Graph, after: Graph, k: nat)
    requires k in before && k in after && k in records
  {
    after[k] == before[k] || (records[k].failed && after[k] == before[k].(failed := true))
  }

  /** So is every reporter but `id`. */
  predicate Spread(records: Graph, before: Graph, after: Graph, id: nat)
    requires before.Keys == after.Keys && before.Keys <= records.Keys
  {
    forall k {:trigger FailedAtMost(records, before, after, k)} | k in before ::
      k != id ==> FailedAtMost(records, before, after, k)
  }

  predicate Finished(objects: Graph, id: nat, blank: set<nat>, open: set<nat>) {
    id in objects && id !in blank && id !in open
  }

  /** When those who list a subtest of an attempt have got their children, its parent is the last one
      that was set. */
  predicate ParentFinal(
    records: Graph, path: set<nat>, objects: Graph, id: nat, blank: set<nat>, open: set<nat>)
    requires id in objects && id in records
  {
    Adopter(records, id).Some? && Finished(objects, Adopter(records, id).value, blank, open) &&
    records[id].parent.Some? && Finished(objects, records[id].parent.value, blank, open) ==>
      objects[id].parent == RestoredParent(records, path, id)
  }

  /** A rebuilt reporter as far as it has come; see `Sound`. */
  predicate SoundAt(records: Graph, path: set<nat>, objects: Graph, id: nat, blank: set<nat>, open: set<nat>)
    requires id in objects && id in records
  {
    var o := objects[id];
    if id in blank then Blank(records, objects, id)
    else
      && Settled(records, objects, id, blank) && o.logs == records[id].logs && o.failed == records[id].failed
      && (id !in open ==> o.children == records[id].children && forall c <- o.children :: c in objects)
      && ParentFinal(records, path, objects, id, blank, open)
  }

  /** Those who list a reporter are among `ids`. */
  predicate ListersIn(records: Graph, k: nat, ids: set<nat>) {
    k in records &&
    (records[k].parent.Some? ==> records[k].parent.value in ids) &&
    (Adopter(records, k).Some? ==> Adopter(records, k).value in ids)
  }

  /** A reporter off the path is rebuilt while the one whose children lead to it gets them. */
  predicate Expected(records: Graph, k: nat, open: set<nat>) {
    k in records && Over(records, k).Some? && Over(records, k).value in open
  }

  ghost predicate AllExpected(records: Graph, path: set<nat>, blank: set<nat>, open: set<nat>) {
    forall b {:trigger Expected(records, b, open)} | b in blank :: b in path || Expected(records, b, open)
  }

  /** Reporters in the path are rebuilt from the top down, before all others below them. */
  ghost predicate Climbed(
    records: Graph, rank: nat -> nat, path: set<nat>, id: nat, blank: set<nat>, open: set<nat>)
    requires WellFormed(records, rank) && id in records
  {
    if id in path then
      open == {} && path == blank + Above(records, rank, id) && forall b <- blank :: rank(b) > rank(id)
    else Expected(records, id, open)
  }

  /** The reporters made so far: `blank` ones still wait for their parent to be rebuilt, `open` ones are
      getting their children, and all others are as recorded, perhaps with another parent. */
  ghost predicate Sound(records: Graph, path: set<nat>, objects: Graph, blank: set<nat>, open: set<nat>) {
    && blank !! open && blank + open <= objects.Keys && objects.Keys <= records.Keys
    && (forall id {:trigger SoundAt(records, path, objects, id, blank, open)} | id in objects ::
          SoundAt(records, path, objects, id, blank, open))
    && AllExpected(records, path, blank, open) && (open != {} ==> path <= objects.Keys)
  }

  /** What rebuilding one reporter leaves alone: those that are there stay, the open ones keep their
      children, and all others than it their parent if nobody who lists them is rebuilt. */
  ghost predicate Keeps(records: Graph, before: Graph, after: Graph, open: set<nat>, id: nat) {
    && before.Keys <= after.Keys
    && (forall k <- open :: k in before && k in after ==> after[k].children == before[k].children)
    && (forall k {:trigger ListersIn(records, k, before.Keys - {id})} | k in before ::
          k != id && k in after && ListersIn(records, k, before.Keys - {id}) ==> after[k].parent == before[k].parent)
  }

  lemma KeepsTwice(records: Graph, a: Graph, b: Graph, c: Graph, open: set<nat>, id: nat)
    requires Keeps(records, a, b, open, id) && Keeps(records, b, c, open, id)
    ensures Keeps(records, a, c, open, id)
  {
    forall k | k in a && k != id && k in c && ListersIn(records, k, a.Keys - {id})
      ensures c[k].parent == a[k].parent
    {
      assert ListersIn(records, k, b.Keys - {id});
    }
  }

  /** Rebuilding a new reporter, with those it leads to, leaves no less alone than that of another. */
  lemma KeepsMore(records: Graph, before: Graph, after: Graph, open: set<nat>, id: nat, other: nat)
    requires Keeps(records, before, after, open, id) && (id !in before || before == after)
    ensures Keeps(records, before, after, open, other)
  {
    forall k | k in before && k != other && k in after && ListersIn(records, k, before.Keys - {other})
      ensures after[k].parent == before[k].parent
    {
      if id !in before {
        assert ListersIn(records, k, before.Keys - {id});
      }
    }
  }

  lemma KeepsNew(records: Graph, before: Graph, after: Graph, open: set<nat>, id: nat)
    requires id !in before && Keeps(records, before[id := NEW], after, open, id) && open <= before.Keys
    ensures Keeps(records, before, after, open, id)
  {
    forall k | k in before && k != id && k in after && ListersIn(records, k, before.Keys - {id})
      ensures after[k].parent == before[k].parent
    {
      assert ListersIn(records, k, before[id := NEW].Keys - {id});
    }
  }

  /** Linking a child changes the parent of no other than one that `id` lists. */
  lemma KeepsLinked(records: Graph, before: Graph, after: Graph, id: nat, c: nat, open: set<nat>)
    requires id !in open && id in before && c in before && c != id && Lists(records, id, c)
    requires id in records && c in records[id].children && id in after
    requires after == before[c := before[c].(parent := Some(id))][id := after[id]]
    requires after[id] == before[id].(children := after[id].children)
    ensures Keeps(records, before, after, open, id)
  {
  }

  lemma NewSoundAt(records: Graph, path: set<nat>, objects: Graph, id: nat,
                   blank: set<nat>, open: set<nat>, k: nat)
    requires objects.Keys <= records.Keys && id in records && id !in objects && k in objects
    requires open <= objects.Keys && SoundAt(records, path, objects, k, blank, open)
    ensures SoundAt(records, path, objects[id := NEW], k, blank + {id}, open)
  {
  }

  /** A new reporter can wait for its parent. */
  lemma NewSound(records: Graph, path: set<nat>, objects: Graph, id: nat, blank: set<nat>, open: set<nat>)
    requires id in records && id !in objects && Sound(records, path, objects, blank, open)
    requires id in path || Expected(records, id, open)
    ensures Sound(records, path, objects[id := NEW], blank + {id}, open)
  {
    var after := objects[id := NEW];
    forall k | k in after ensures SoundAt(records, path, after, k, blank + {id}, open) {
      if k != id {
        assert SoundAt(records, path, objects, k, blank, open);
        NewSoundAt(records, path, objects, id, blank, open, k);
      }
    }
    forall b | b in blank + {id} ensures b in path || Expected(records, b, open) {
    }
  }

  /** A reporter stays sound when one of the blank ones gets its fields and, perhaps, failures spread. */
  lemma FieldsSoundAt(records: Graph, path: set<nat>, before: Graph, after: Graph, id: nat,
                      blank: set<nat>, open: set<nat>, k: nat)
    requires before.Keys == after.Keys && before.Keys <= records.Keys && id in before && k in before && k != id
    requires SoundAt(records, path, before, k, blank + {id}, open)
    requires k in after && FailedAtMost(records, before, after, k)
    ensures SoundAt(records, path, after, k, blank, open + {id})
  {
  }

  /** The reporter that got them is sound, too. */
  lemma FilledSoundAt(records: Graph, rank: nat -> nat, path: set<nat>, after: Graph, id: nat,
                      blank: set<nat>, open: set<nat>)
    requires WellFormed(records, rank) && UpClosed(records, path) && after.Keys <= records.Keys && id in after
    requires id !in blank && id !in open && Climbed(records, rank, path, id, blank, open)
    requires after[id] == records[id].(children := [])
    requires Settled(records, after, id, blank)
    ensures SoundAt(records, path, after, id, blank, open + {id})
  {
  }

  lemma FieldsSound(records: Graph, rank: nat -> nat, path: set<nat>, before: Graph, filled: Graph, after: Graph,
                    id: nat, blank: set<nat>, open: set<nat>)
    requires WellFormed(records, rank) && UpClosed(records, path) && Sound(records, path, before, blank + {id}, open)
    requires before.Keys == filled.Keys && id !in blank && id !in open && path <= before.Keys
    requires Climbed(records, rank, path, id, blank, open) && Spread(records, before, filled, id)
    requires filled[id] == records[id].(children := [], logs := []) && Settled(records, filled, id, blank)
    requires after == filled[id := records[id].(children := [])]
    ensures Sound(records, path, after, blank, open + {id}) && Keeps(records, before, after, open, id)
  {
    forall k | k in after ensures SoundAt(records, path, after, k, blank, open + {id}) {
      if k == id {
        FilledSoundAt(records, rank, path, after, id, blank, open);
      } else {
        assert SoundAt(records, path, before, k, blank + {id}, open);
        assert FailedAtMost(records, before, filled, k);
        FieldsSoundAt(records, path, before, after, id, blank, open, k);
      }
    }
    forall b | b in blank ensures b in path || Expected(records, b, open + {id}) {
      assert b in blank + {id};
      assert b in path || Expected(records, b, open);
    }
    forall k | k in before && k != id ensures after[k].(failed := false) == before[k].(failed := false) {
      assert FailedAtMost(records, before, filled, k);
    }
  }

  /** A reporter stays sound when the open reporter `id` gets a child, whose parent it becomes. */
  lemma ChildSoundAt(records: Graph, path: set<nat>, before: Graph, after: Graph, id: nat, c: nat,
                     blank: set<nat>, open: set<nat>, k: nat)
    requires before.Keys <= records.Keys && id in before && c in before && k in before && id !in blank
    requires SoundAt(records, path, before, k, blank, open + {id})
    requires Lists(records, id, c) && c in records[id].children
    requires c != id && id in after && after == before[c := before[c].(parent := Some(id))][id := after[id]]
    requires after[id] == before[id].(children := after[id].children)
    ensures SoundAt(records, path, after, k, blank, open + {id})
  {
  }

  lemma ChildSound(records: Graph, path: set<nat>, before: Graph, after: Graph, id: nat, c: nat,
                   blank: set<nat>, open: set<nat>)
    requires Sound(records, path, before, blank, open + {id}) && id in before && c in before && id !in blank
    requires Lists(records, id, c) && c in records[id].children
    requires c != id && id in after && after == before[c := before[c].(parent := Some(id))][id := after[id]]
    requires after[id] == before[id].(children := after[id].children)
    ensures Sound(records, path, after, blank, open + {id})
  {
    forall k | k in after ensures SoundAt(records, path, after, k, blank, open + {id}) {
      assert SoundAt(records, path, before, k, blank, open + {id});
      ChildSoundAt(records, path, before, after, id, c, blank, open, k);
    }
  }

  /** And when `id` has got all of its children. */
  lemma ClosedSoundAt(records: Graph, rank: nat -> nat, path: set<nat>, objects: Graph, id: nat,
                      blank: set<nat>, open: set<nat>, k: nat)
    requires WellFormed(records, rank) && UpClosed(records, path) && objects.Keys <= records.Keys
    requires id in objects && k in objects
    requires id !in blank && id !in open && Climbed(records, rank, path, id, blank, open)
    requires SoundAt(records, path, objects, k, blank, open + {id})
    requires objects[id].children == records[id].children
    requires forall c <- records[id].children :: c in objects && objects[c].parent == Some(id)
    ensures SoundAt(records, path, objects, k, blank, open)
  {
    if k !in blank && Adopter(records, k).Some? {
      assert Lists(records, Adopter(records, k).value, k);
    }
  }

  lemma ClosedSound(records: Graph, rank: nat -> nat, path: set<nat>, objects: Graph, id: nat,
                    blank: set<nat>, open: set<nat>)
    requires WellFormed(records, rank) && UpClosed(records, path)
    requires Sound(records, path, objects, blank, open + {id}) && id in objects
    requires id !in blank && id !in open && Climbed(records, rank, path, id, blank, open)
    requires objects[id].children == records[id].children
    requires forall c <- records[id].children :: c in objects && objects[c].parent == Some(id)
    requires AllExpected(records, path, blank, open)
    ensures Sound(records, path, objects, blank, open)
  {
    forall k | k in objects ensures SoundAt(records, path, objects, k, blank, open) {
      assert SoundAt(records, path, objects, k, blank, open + {id});
      ClosedSoundAt(records, rank, path, objects, id, blank, open, k);
    }
  }

  lemma SoundReachable(records: Graph, path: set<nat>, objects: Graph, blank: set<nat>, open: set<nat>, id: nat)
    requires Sound(records, path, objects, blank + {id}, open)
    ensures AllReachable(records, objects, blank, objects.Keys - {id})
  {
    forall k | k in objects && k != id ensures Reachable(records, objects, k, blank) {
      assert SoundAt(records, path, objects, k, blank + {id}, open);
    }
  }

  /** A reporter whose fields are set can be reached by failures, as the others still can. */
  lemma SetReachable(records: Graph, before: Graph, after: Graph, id: nat, blank: set<nat>)
    requires id in before && before.Keys <= records.Keys && AllReachable(records, before, blank, before.Keys - {id})
    requires id !in blank && ParentKnown(records, before, id, blank)
    requires after == before[id := before[id].(parent := records[id].parent, fields := records[id].fields)]
    ensures after.Keys == before.Keys && AllReachable(records, after, blank, after.Keys)
  {
    forall k | k in after ensures Reachable(records, after, k, blank) {
      assert k != id ==> Reachable(records, before, k, blank);
    }
  }

  lemma SpreadUp(records: Graph, start: Graph, above: Graph, after: Graph, id: nat, parent: nat)
    requires start.Keys == above.Keys && start.Keys <= records.Keys && id in start && parent in start && id != parent
    requires Spread(records, start, above, parent) && records[parent].failed
    requires above[parent] == start[parent].(failed := true) && after == above[id := above[id].(failed := true)]
    ensures Spread(records, start, after, id) && after[id] == start[id].(failed := true)
  {
    forall k | k in start && k != id ensures FailedAtMost(records, start, after, k) {
      assert FailedAtMost(records, start, above, k) || k == parent;
    }
    assert FailedAtMost(records, start, above, id);
  }

  lemma SpreadFrom(records: Graph, start: Graph, filled: Graph, after: Graph, id: nat)
    requires start.Keys == after.Keys && start.Keys <= records.Keys && id in start
    requires id in filled && filled == start[id := filled[id]]
    requires Spread(records, filled, after, id)
    ensures Spread(records, start, after, id)
  {
    forall k | k in start && k != id ensures FailedAtMost(records, start, after, k) {
      assert FailedAtMost(records, filled, after, k);
    }
  }

  /** A child that has this parent, with all who list it there. */
  predicate IsLinked(records: Graph, objects: Graph, id: nat, c: nat) {
    c in objects && objects[c].parent == Some(id) && ListersIn(records, c, objects.Keys)
  }

  /** The first `k` children of a reporter have it as their parent. */
  predicate Linked(records: Graph, objects: Graph, id: nat, k: nat)
    requires id in records
  {
    forall i | 0 <= i < k && i < |records[id].children| :: IsLinked(records, objects, id, records[id].children[i])
  }

  lemma LinkedStays(records: Graph, before: Graph, after: Graph, open: set<nat>, id: nat, c: nat, k: nat)
    requires Keeps(records, before, after, open, c) && (c !in before || before == after)
    requires IsLinked(records, before, id, k)
    ensures IsLinked(records, after, id, k)
  {
    if c !in before {
      assert ListersIn(records, k, before.Keys - {c});
    }
  }

  /** Those above a reporter in the path have all of their children. */
  lemma ChildrenAbove(records: Graph, rank: nat -> nat, path: set<nat>, objects: Graph, id: nat, above: nat,
                      blank: set<nat>, open: set<nat>)
    requires WellFormed(records, rank) && UpClosed(records, path)
    requires Sound(records, path, objects, blank, open + {id})
    requires id in path && Climbed(records, rank, path, id, blank, open)
    requires above in path && rank(above) < rank(id)
    ensures forall c <- records[above].children :: c in objects
  {
    assert SoundAt(records, path, objects, above, blank, open + {id});
  }

  /** When a reporter gets a child that is not there yet, the child can be rebuilt. */
  lemma ChildExpected(records: Graph, rank: nat -> nat, path: set<nat>, objects: Graph, id: nat, c: nat,
                      blank: set<nat>, open: set<nat>)
    requires WellFormed(records, rank) && UpClosed(records, path)
    requires Sound(records, path, objects, blank, open + {id}) && id !in blank && id !in open
    requires Climbed(records, rank, path, id, blank, open) && c in records[id].children && c !in objects
    ensures c !in path && Expected(records, c, open + {id})
  {
    assert Lists(records, id, c);
    if id in path && records[id].parent.Some? {
      ChildrenAbove(records, rank, path, objects, id, records[id].parent.value, blank, open);
    }
  }

  /** Those who list a child that has been resolved are there. */
  lemma ChildListed(records: Graph, rank: nat -> nat, path: set<nat>, objects: Graph, id: nat, c: nat,
                    blank: set<nat>, open: set<nat>)
    requires WellFormed(records, rank) && UpClosed(records, path)
    requires Sound(records, path, objects, blank, open + {id}) && id !in blank && id !in open
    requires AllExpected(records, path, blank, open)
    requires Climbed(records, rank, path, id, blank, open) && c in records[id].children && c in objects
    ensures ListersIn(records, c, objects.Keys)
  {
    assert Lists(records, id, c) && SoundAt(records, path, objects, c, blank, open + {id});
    assert c in blank ==> c in path || Expected(records, c, open);
  }

  lemma ChildLinked(records: Graph, start: Graph, before: Graph, after: Graph, id: nat, k: nat, open: set<nat>)
    requires id in records && k < |records[id].children| && Linked(records, start, id, k)
    requires var c := records[id].children[k];
      c in before && c != id && id in after && ListersIn(records, c, before.Keys) &&
      Keeps(records, start, before, open + {id}, c) && (c !in start || start == before) && id in before &&
      after == before[c := before[c].(parent := Some(id))][id := before[id].(children := after[id].children)]
    ensures Linked(records, after, id, k + 1)
  {
    var c := records[id].children[k];
    assert before.Keys == after.Keys;
    forall i | 0 <= i < k + 1 ensures IsLinked(records, after, id, records[id].children[i]) {
      if i < k {
        LinkedStays(records, start, before, open + {id}, id, c, records[id].children[i]);
      }
    }
  }

  lemma ChildKeeps(records: Graph, start: Graph, before: Graph, after: Graph, id: nat, c: nat, open: set<nat>)
    requires id !in open && id in before && c in before && c != id && Lists(records, id, c)
    requires Keeps(records, start, before, open + {id}, c) && (c !in start || start == before)
    requires id in records && c in records[id].children && id in after
    requires after == before[c := before[c].(parent := Some(id))][id := after[id]]
    requires after[id] == before[id].(children := after[id].children)
    ensures Keeps(records, start, after, open, id)
  {
    KeepsMore(records, start, before, open, c, id);
    KeepsLinked(records, before, after, id, c, open);
    KeepsTwice(records, start, before, after, open, id);
  }

  class Restorer {
    const records: Graph
    ghost const rank: nat -> nat
    ghost const path: set<nat>
    var objects: Graph

    /** Rebuilds from `start`. */
    constructor (records: Graph, start: nat, ghost rank: nat -> nat)
      requires WellFormed(records, rank) && start in records
      ensures this.records == records && this.rank == rank && path == Above(records, rank, start)
      ensures objects == map[start := NEW]
    {
      this.records, this.rank, this.path := records, rank, Above(records, rank, start);
      objects := map[start := NEW];
    }

    ghost predicate Given() {
      WellFormed(records, rank) && Propagated(records) && UpClosed(records, path)
    }

    /** A reporter can be rebuilt now. */
    ghost predicate Ready(id: nat, blank: set<nat>, open: set<nat>)
      requires Given() && id in records
      reads this
    {
      && Climbed(records, rank, path, id, blank, open)
      && if id in path then objects.Keys - {id} == blank else path <= objects.Keys
    }

    /** Marks a reporter as failed, and those above it that its failure reaches. */
    method Fail(id: nat, ghost blank: set<nat>)
      requires Given() && objects.Keys <= records.Keys && id in objects && records[id].failed
      requires AllReachable(records, objects, blank, objects.Keys)
      requires id in blank ==> records[id].fields.retryable
      modifies this`objects
      ensures objects.Keys == old(objects.Keys) && objects[id] == old(objects[id]).(failed := true)
      ensures Spread(records, old(objects), objects, id)
      decreases rank(id)
    {
      var o := objects[id];
      assert Reachable(records, objects, id, blank);
      if o.parent.Some? && o.Propagates() {
        FailsAbove(records, rank, id, o.parent.value);
        Fail(o.parent.value, blank);
        ghost var above := objects;
        objects := objects[id := objects[id].(failed := true)];
        SpreadUp(records, old(objects), above, objects, id, o.parent.value);
      } else {
        objects := objects[id := objects[id].(failed := true)];
      }
    }

    /** The reporter for an address, made if it is not there yet. */
    method Resolve(id: nat, ghost blank: set<nat>, ghost open: set<nat>)
      requires Given() && Sound(records, path, objects, blank, open) && id in records
      requires if id in objects then path <= objects.Keys else Ready(id, blank, open)
      modifies this`objects
      ensures Sound(records, path, objects, blank, open) && Keeps(records, old(objects), objects, open, id)
      ensures id in objects && path <= objects.Keys
      ensures id in old(objects) ==> objects == old(objects)
      decreases records.Keys - objects.Keys, 0
    {
      if id in objects {
        return;
      }
      NewSound(records, path, objects, id, blank, open);
      objects := objects[id := NEW];
      assert id !in records.Keys - objects.Keys;
      SetFromSerializable(id, blank, open);
      KeepsNew(records, old(objects), objects, open, id);
    }

    method SetFromSerializable(id: nat, ghost blank: set<nat>, ghost open: set<nat>)
      requires Given() && id !in blank && id !in open && Sound(records, path, objects, blank + {id}, open)
      requires Ready(id, blank, open)
      modifies this`objects
      ensures Sound(records, path, objects, blank, open) && Keeps(records, old(objects), objects, open, id)
      ensures id in objects && path <= objects.Keys
      decreases records.Keys - objects.Keys, 3
    {
      ResolveParent(id, blank, open);
      ghost var up := objects;
      SetFields(id, blank, open);
      ghost var filled := objects;
      SetChildren(id, blank, open);
      KeepsTwice(records, old(objects), up, filled, open, id);
      KeepsTwice(records, old(objects), filled, objects, open, id);
    }

    /** The parent of a reporter that can be rebuilt is there or can be, too. */
    lemma ParentReady(parent: nat, id: nat, blank: set<nat>, open: set<nat>)
      requires Given() && id !in blank && id !in open && Sound(records, path, objects, blank + {id}, open)
      requires Ready(id, blank, open) && records[id].parent == Some(parent)
      ensures if parent in objects then path <= objects.Keys else Ready(parent, blank + {id}, open)
    {
      assert Adopter(records, id).Some? ==> Lists(records, Adopter(records, id).value, id);
    }

    method ResolveParent(id: nat, ghost blank: set<nat>, ghost open: set<nat>)
      requires Given() && id !in blank && id !in open && Sound(records, path, objects, blank + {id}, open)
      requires Ready(id, blank, open)
      modifies this`objects
      ensures Sound(records, path, objects, blank + {id}, open) && Keeps(records, old(objects), objects, open, id)
      ensures path <= objects.Keys
      ensures records[id].parent.Some? ==> records[id].parent.value in objects
      decreases records.Keys - objects.Keys, 2
    {
      var parent := records[id].parent;
      if parent.Some? {
        ParentReady(parent.value, id, blank, open);
        Resolve(parent.value, blank + {id}, open);
        KeepsMore(records, old(objects), objects, open, parent.value, id);
      }
    }

    /** Sets the parent, the fields and the failure. */
    method SetFlags(id: nat, ghost blank: set<nat>)
      requires Given() && objects.Keys <= records.Keys && id in objects && id !in blank
      requires Blank(records, objects, id)
      requires AllReachable(records, objects, blank, objects.Keys - {id})
      requires ParentKnown(records, objects, id, blank)
      modifies this`objects
      ensures objects.Keys == old(objects.Keys)
      ensures objects[id] == records[id].(children := [], logs := [])
      ensures Settled(records, objects, id, blank)
      ensures Spread(records, old(objects), objects, id)
    {
      objects := objects[id := objects[id].(parent := records[id].parent)];
      objects := objects[id := objects[id].(fields := records[id].fields)];
      ghost var filled := objects;
      assert filled == old(objects)[id := filled[id]];
      SetReachable(records, old(objects), filled, id, blank);
      if records[id].failed {
        Fail(id, blank);
        SpreadFrom(records, old(objects), filled, objects, id);
      }
      assert Settled(records, objects, id, blank) by {
        assert Reachable(records, filled, id, blank);
      }
    }

    method SetFields(id: nat, ghost blank: set<nat>, ghost open: set<nat>)
      requires Given() && id !in blank && id !in open && Sound(records, path, objects, blank + {id}, open)
      requires Climbed(records, rank, path, id, blank, open) && path <= objects.Keys
      requires records[id].parent.Some? ==> records[id].parent.value in objects
      modifies this`objects
      ensures Sound(records, path, objects, blank, open + {id}) && objects[id].children == []
      ensures Keeps(records, old(objects), objects, open, id)
    {
      assert SoundAt(records, path, objects, id, blank + {id}, open);
      SoundReachable(records, path, objects, blank, open, id);
      SetFlags(id, blank);
      ghost var filled := objects;
      objects := objects[id := objects[id].(logs := objects[id].logs + records[id].logs)];
      assert [] + records[id].logs == records[id].logs;
      FieldsSound(records, rank, path, old(objects), filled, objects, id, blank, open);
    }

    method SetChild(id: nat, k: nat, ghost blank: set<nat>, ghost open: set<nat>)
      requires Given() && id !in blank && id !in open && Sound(records, path, objects, blank, open + {id})
      requires AllExpected(records, path, blank, open)
      requires Climbed(records, rank, path, id, blank, open)
      requires k < |records[id].children| && Linked(records, objects, id, k)
      modifies this`objects
      ensures Sound(records, path, objects, blank, open + {id}) && Keeps(records, old(objects), objects, open, id)
      ensures Linked(records, objects, id, k + 1)
      ensures id in old(objects) && objects[id].children == old(objects[id].children) + [records[id].children[k]]
      decreases records.Keys - objects.Keys, 1
    {
      var c := records[id].children[k];
      assert Lists(records, id, c);
      if c !in objects {
        ChildExpected(records, rank, path, objects, id, c, blank, open);
      }
      Resolve(c, blank, open + {id});
      ghost var before := objects;
      objects := objects[c := objects[c].(parent := Some(id))];
      objects := objects[id := objects[id].(children := objects[id].children + [c])];
      ChildSound(records, path, before, objects, id, c, blank, open);
      ChildKeeps(records, old(objects), before, objects, id, c, open);
      ChildListed(records, rank, path, before, id, c, blank, open);
      ChildLinked(records, old(objects), before, objects, id, k, open);
    }

    method SetChildren(id: nat, ghost blank: set<nat>, ghost open: set<nat>)
      requires Given() && id !in blank && id !in open && Sound(records, path, objects, blank, open + {id})
      requires AllExpected(records, path, blank, open)
      requires Climbed(records, rank, path, id, blank, open) && objects[id].children == []
      modifies this`objects
      ensures Sound(records, path, objects, blank, open) && Keeps(records, old(objects), objects, open, id)
      decreases records.Keys - objects.Keys, 2
    {
      var children := records[id].children;
      for k := 0 to |children|
        invariant Sound(records, path, objects, blank, open + {id})
        invariant Keeps(records, old(objects), objects, open, id)
        invariant objects[id].children == children[..k] && Linked(records, objects, id, k)
      {
        ghost var before := objects;
        SetChild(id, k, blank, open);
        KeepsTwice(records, old(objects), before, objects, open, id);
      }
      assert children[..|children|] == children;
      ClosedSound(records, rank, path, objects, id, blank, open);
    }
  }

  /** A part of a graph that its edges do not leave is a graph. */
  lemma PartIsGraph(g: Graph, part: Graph, rank: nat -> nat)
    requires WellFormed(g, rank) && Propagated(g)
    requires Closed(g, part.Keys) && forall k <- part :: part[k] == g[k]
    ensures WellFormed(part, rank) && Propagated(part)
  {
  }

  /** Records the reporters that `id` leads to, and no others. */
  method Record(graph: Graph, id: nat) returns (records: Graph)
    requires Closed(graph, graph.Keys) && id in graph
    ensures id in records && Closed(graph, records.Keys) && forall k <- records :: records[k] == graph[k]
    ensures forall s: set<nat> :: Closed(graph, s) && id in s ==> records.Keys <= s
  {
    var serializer := new Serializer(graph);
    serializer.ToSerializable(id, {});
    records := serializer.records;
    forall k <- records ensures records[k] == graph[k] && serializer.Complete(k) {
    }
    forall s: set<nat> | Closed(graph, s) && id in s ensures records.Keys <= s {
      assert records.Keys <= {} + s;
    }
  }

  /** What a reporter becomes when the graph is rebuilt from a reporter below those in `path`. */
  function Restored(g: Graph, path: set<nat>, k: nat): Reporter
    requires k in g
  {
    g[k].(parent := RestoredParent(g, path, k))
  }

  /** A rebuilt reporter, whose edges lead to others. */
  predicate Rebuilt(g: Graph, path: set<nat>, rebuilt: Graph, k: nat)
    requires k in g && k in rebuilt
  {
    && rebuilt[k] == Restored(g, path, k)
    && (g[k].parent.Some? ==> g[k].parent.value in rebuilt) && (forall c <- g[k].children :: c in rebuilt)
  }

  lemma AllRebuilt(records: Graph, path: set<nat>, rebuilt: Graph)
    requires Sound(records, path, rebuilt, {}, {})
    ensures forall k <- rebuilt :: k in records && Rebuilt(records, path, rebuilt, k)
  {
    forall k | k in rebuilt ensures Rebuilt(records, path, rebuilt, k) {
      assert SoundAt(records, path, rebuilt, k, {}, {});
      if records[k].parent.Some? {
        assert SoundAt(records, path, rebuilt, records[k].parent.value, {}, {});
      }
    }
  }

  method Rebuild(records: Graph, id: nat, ghost rank: nat -> nat) returns (rebuilt: Graph)
    requires WellFormed(records, rank) && Propagated(records) && id in records
    ensures id in rebuilt
    ensures forall k <- rebuilt :: k in records && Rebuilt(records, Above(records, rank, id), rebuilt, k)
  {
    var restorer := new Restorer(records, id, rank);
    NewSound(records, restorer.path, map[], id, {}, {});
    assert {} + {id} == {id};
    restorer.SetFromSerializable(id, {}, {});
    rebuilt := restorer.objects;
    AllRebuilt(records, restorer.path, rebuilt);
  }

  /** In such a part everything is above, and goes to, what it does in the whole. */
  lemma {:induction false} PartAbove(g: Graph, part: Graph, rank: nat -> nat, k: nat)
    requires WellFormed(g, rank) && WellFormed(part, rank)
    requires Closed(g, part.Keys) && (forall k <- part :: part[k] == g[k]) && k in part
    ensures Above(part, rank, k) == Above(g, rank, k)
    decreases rank(k)
  {
    if g[k].parent.Some? {
      PartAbove(g, part, rank, g[k].parent.value);
    }
  }

  lemma PartRebuilt(g: Graph, part: Graph, path: set<nat>, rebuilt: Graph, k: nat)
    requires Closed(g, part.Keys) && (forall k <- part :: part[k] == g[k]) && k in part && k in rebuilt
    requires Closed(g, g.Keys) && Rebuilt(part, path, rebuilt, k)
    ensures Rebuilt(g, path, rebuilt, k)
  {
  }

  /** Records the reporters that `id` leads to, in a map, and rebuilds them from it: they come back as
      they were, with their edges, their logs in order and their flags, and no others do; only the
      subtests of an attempt have the retried test as their parent when `id` is not below the attempt. */
  method RoundTrip(graph: Graph, id: nat, ghost rank: nat -> nat) returns (rebuilt: Graph)
    requires WellFormed(graph, rank) && Propagated(graph) && id in graph
    ensures id in rebuilt
    ensures forall k <- rebuilt :: k in graph && Rebuilt(graph, Above(graph, rank, id), rebuilt, k)
    ensures forall s: set<nat> :: Closed(graph, s) && id in s ==> rebuilt.Keys <= s
  {
    var records := Record(graph, id);
    PartIsGraph(graph, records, rank);
    PartAbove(graph, records, rank, id);
    rebuilt := Rebuild(records, id, rank);
    forall k <- rebuilt ensures Rebuilt(graph, Above(graph, rank, id), rebuilt, k) {
      PartRebuilt(graph, records, Above(graph, rank, id), rebuilt, k);
    }
  }

  /** A reporter comes back as it was if and only if it is listed by its parent only, or its parent is
      the given reporter or above it. */
  lemma UnchangedWhen(g: Graph, rank: nat -> nat, id: nat, k: nat)
    requires WellFormed(g, rank) && id in g && k in g
    ensures Restored(g, Above(g, rank, id), k) == g[k] <==>
      (forall p <- g :: k in g[p].children ==> g[k].parent == Some(p)) ||
      (g[k].parent.Some? && g[k].parent.value in Above(g, rank, id))
  {
    if Adopter(g, k).Some? {
      assert rank(Adopter(g, k).value) < rank(g[k].parent.value);
    } else {
      forall p | p in g && k in g[p].children ensures g[k].parent == Some(p) {
        assert Lists(g, p, k);
      }
    }
  }
}

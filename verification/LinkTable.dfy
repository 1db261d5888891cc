/**
 * The link table of the socket registry: one canonical pointer per link id, moved between
 * an active and an inactive map, and duplicates deleted as they arrive.
 */
module LinkTable {
  import opened Common

  // ---- the table over a history of calls ---------------------------------------------

  datatype LinkOp<P> = Added(id: string, p: P) | Removed(id: string)

  /** The first pointer ever added under the id. */
  function Canonical<P>(ops: seq<LinkOp<P>>, id: string): Option<P>
    decreases |ops|
  {
    if ops == [] then None
    else if ops[0].Added? && ops[0].id == id then Some(ops[0].p)
    else Canonical(ops[1..], id)
  }

  /** The last call that named the id added it. */
  predicate LastAdded<P>(ops: seq<LinkOp<P>>, id: string)
    decreases |ops|
  {
    if ops == [] then false
    else
      var op := ops[|ops| - 1];
      if op.id == id then op.Added? else LastAdded(ops[..|ops| - 1], id)
  }

  lemma {:induction false} CanonicalOfExtended<P>(ops: seq<LinkOp<P>>, op: LinkOp<P>, id: string)
    ensures Canonical(ops + [op], id) ==
      if Canonical(ops, id).Some? then Canonical(ops, id)
      else if op.Added? && op.id == id then Some(op.p) else None
    decreases |ops|
  {
    if ops == [] {
      assert (ops + [op])[1..] == [];
    } else {
      assert (ops + [op])[1..] == ops[1..] + [op];
      CanonicalOfExtended(ops[1..], op, id);
    }
  }

  /** A canonical pointer never changes, whatever calls follow. */
  lemma {:induction false} CanonicalIsForever<P>(ops: seq<LinkOp<P>>, more: seq<LinkOp<P>>, id: string)
    requires Canonical(ops, id).Some?
    ensures Canonical(ops + more, id) == Canonical(ops, id)
    decreases |more|
  {
    if more == [] {
      assert ops + more == ops;
    } else {
      CanonicalOfExtended(ops, more[0], id);
      CanonicalIsForever(ops + [more[0]], more[1..], id);
      assert ops + more == ops + [more[0]] + more[1..];
    }
  }

  /** Only an id that was added at some time can be active. */
  lemma {:induction false} ActiveWasAdded<P>(ops: seq<LinkOp<P>>, id: string)
    requires LastAdded(ops, id)
    ensures Canonical(ops, id).Some?
    decreases |ops|
  {
    var op, rest := ops[|ops| - 1], ops[..|ops| - 1];
    assert ops == rest + [op];
    CanonicalOfExtended(rest, op, id);
    if op.id != id {
      ActiveWasAdded(rest, id);
    }
  }

  // ---- the table in memory ------------------------------------------------------------

  class BratislavaLink {
    const linkID: string

    constructor (linkID: string)
      ensures this.linkID == linkID
    {
      this.linkID := linkID;
    }
  }

  class Table {
    var activeLinks: map<string, BratislavaLink>
    var inactiveLinks: map<string, BratislavaLink>
    /** The links that have been deleted. */
    ghost var deleted: set<BratislavaLink>
    /** Every call so far. */
    ghost var history: seq<LinkOp<BratislavaLink>>

    /** The two maps hold, for every id ever added, its canonical pointer: in the active map
        when the last call on the id added it, otherwise in the inactive one.  No pointer in
        either map has been deleted. */
    ghost predicate Valid()
      reads this
    {
      && (forall id :: id in activeLinks <==> LastAdded(history, id))
      && (forall id :: id in inactiveLinks <==> Canonical(history, id).Some? && !LastAdded(history, id))
      && (forall id :: id in activeLinks ==> Canonical(history, id) == Some(activeLinks[id]))
      && (forall id :: id in inactiveLinks ==> Canonical(history, id) == Some(inactiveLinks[id]))
      && (forall id :: id in activeLinks ==> activeLinks[id].linkID == id && activeLinks[id] !in deleted)
      && (forall id :: id in inactiveLinks ==> inactiveLinks[id].linkID == id && inactiveLinks[id] !in deleted)
    }

    constructor ()
      ensures Valid() && history == [] && deleted == {}
    {
      activeLinks, inactiveLinks, deleted, history := map[], map[], {}, [];
    }

    ghost method Record(op: LinkOp<BratislavaLink>)
      modifies this`history
      ensures history == old(history) + [op]
      ensures forall id :: Canonical(old(history), id).Some? ==> Canonical(history, id) == Canonical(old(history), id)
      ensures forall id :: Canonical(old(history), id).None? ==>
                Canonical(history, id) == (if op.Added? && op.id == id then Some(op.p) else None)
      ensures forall id :: LastAdded(history, id) <==> if op.id == id then op.Added? else LastAdded(old(history), id)
    {
      forall id {
        CanonicalOfExtended(history, op, id);
      }
      assert (history + [op])[..|history|] == history;
      history := history + [op];
    }

    /** Adds a link; a duplicate of a known id is deleted and the canonical pointer returned. */
    method AddLink(link: BratislavaLink) returns (canonical: BratislavaLink)
      requires Valid() && link !in deleted
      modifies this
      ensures Valid()
      ensures history == old(history) + [Added(link.linkID, link)]
      ensures Canonical(history, link.linkID) == Some(canonical)
      ensures deleted == if canonical == link then old(deleted) else old(deleted) + {link}
    {
      var id := link.linkID;
      canonical := link;
      Record(Added(id, link));
      if id in activeLinks {
        if activeLinks[id] != link {
          deleted := deleted + {link};
          canonical := activeLinks[id];
        }
        return;
      }
      if id in inactiveLinks {
        if inactiveLinks[id] != link {
          deleted := deleted + {link};
          canonical := inactiveLinks[id];
        }
        activeLinks := activeLinks[id := inactiveLinks[id]];
        inactiveLinks := inactiveLinks - {id};
        return;
      }
      activeLinks := activeLinks[id := link];
    }

    method RemoveLink(id: string)
      requires Valid()
      modifies this
      ensures Valid()
      ensures history == old(history) + [Removed(id)]
      ensures deleted == old(deleted)
    {
      Record(Removed(id));
      if id in activeLinks {
        inactiveLinks := inactiveLinks[id := activeLinks[id]];
        activeLinks := activeLinks - {id};
      }
    }

    /** The canonical pointer of an id, active or not. */
    method GetLink(id: string) returns (link: Option<BratislavaLink>)
      requires Valid()
      ensures link == Canonical(history, id)
      ensures link.Some? ==> link.value.linkID == id && link.value !in deleted
    {
      if id in inactiveLinks {
        return Some(inactiveLinks[id]);
      }
      if id in activeLinks {
        return Some(activeLinks[id]);
      }
      if LastAdded(history, id) {
        ActiveWasAdded(history, id);
      }
      return None;
    }

    /** Appends the canonical pointers of the ids whose last call added them, each once. */
    method GetLinks(before: seq<BratislavaLink>) returns (links: seq<BratislavaLink>)
      requires Valid()
      ensures before <= links
      ensures forall i :: |before| <= i < |links| ==>
        LastAdded(history, links[i].linkID) && Canonical(history, links[i].linkID) == Some(links[i])
      ensures forall id :: LastAdded(history, id) ==> exists i :: |before| <= i < |links| && links[i].linkID == id
      ensures forall i, j :: |before| <= i < j < |links| ==> links[i].linkID != links[j].linkID
    {
      links := before;
      var left := activeLinks.Keys;
      while left != {}
        invariant left <= activeLinks.Keys && before <= links
        invariant forall i :: |before| <= i < |links| ==>
          links[i].linkID in activeLinks && links[i].linkID !in left && links[i] == activeLinks[links[i].linkID]
        invariant forall id :: id in activeLinks && id !in left ==> exists i ::
          |before| <= i < |links| && links[i].linkID == id
        invariant forall i, j :: |before| <= i < j < |links| ==> links[i].linkID != links[j].linkID
        decreases left
      {
        var id :| id in left;
        ghost var was := links;
        links := links + [activeLinks[id]];
        left := left - {id};
        forall d | d in activeLinks && d !in left
          ensures exists i :: |before| <= i < |links| && links[i].linkID == d
        {
          if d == id {
            assert links[|was|].linkID == d;
          } else {
            var i :| |before| <= i < |was| && was[i].linkID == d;
            assert links[i].linkID == d;
          }
        }
      }
    }
  }
}

/** The message deduplicator (go/node/transport.go).  Times are integer nanoseconds that never decrease. */
module Dedup {
  import opened Bytes

  type ID = string
  type Seen = map<ID, int>

  // ---------- the operations on the map of times ----------

  predicate Expired(seen: Seen, ttl: int, id: ID, now: int)
    requires id in seen
  {
    ttl > 0 && now - seen[id] > ttl
  }

  /** IsDuplicate's answer, and the map after its lazy deletion. */
  predicate Answer(seen: Seen, ttl: int, id: ID, now: int)
  {
    id in seen && !Expired(seen, ttl, id, now)
  }

  function AfterAsk(seen: Seen, ttl: int, id: ID, now: int): Seen
  {
    if id in seen && Expired(seen, ttl, id, now) then seen - {id} else seen
  }

  function AfterMark(seen: Seen, id: ID, now: int): Seen
  {
    seen[id := now]
  }

  function AfterSweep(seen: Seen, ttl: int, now: int): Seen
  {
    map id | id in seen && now - seen[id] <= ttl :: seen[id]
  }

  // ---------- histories ----------

  datatype Event = Ask(id: ID, at: int) | Mark(id: ID, at: int) | Sweep(at: int)

  function Apply(seen: Seen, ttl: int, e: Event): Seen
  {
    match e
    case Ask(id, t) => AfterAsk(seen, ttl, id, t)
    case Mark(id, t) => AfterMark(seen, id, t)
    case Sweep(t) => AfterSweep(seen, ttl, t)
  }

  /** The map after a history, from empty. */
  function SeenAfter(ttl: int, h: seq<Event>): Seen
  {
    if h == [] then map[] else Apply(SeenAfter(ttl, h[..|h| - 1]), ttl, h[|h| - 1])
  }

  /** The time of the last Mark of id: what the deduplicator is asked to remember. */
  function Latest(h: seq<Event>, id: ID): Option<int>
  {
    if h == [] then None
    else
      var e := h[|h| - 1];
      if e.Mark? && e.id == id then Some(e.at) else Latest(h[..|h| - 1], id)
  }

  /** Every event is no earlier than those before it, and now is no earlier than any of them. */
  predicate Ordered(h: seq<Event>, now: int)
  {
    h == [] || (h[|h| - 1].at <= now && Ordered(h[..|h| - 1], h[|h| - 1].at))
  }

  predicate MarkedWithin(h: seq<Event>, ttl: int, id: ID, now: int)
  {
    Latest(h, id).Some? && now - Latest(h, id).value <= ttl
  }

  /** An entry is the latest mark; a mark without an entry is older than the ttl and stays so. */
  lemma {:induction false} EntryIsLatestMark(ttl: int, h: seq<Event>, id: ID, now: int)
    requires ttl > 0 && Ordered(h, now)
    ensures id in SeenAfter(ttl, h) ==> Latest(h, id) == Some(SeenAfter(ttl, h)[id])
    ensures id !in SeenAfter(ttl, h) && Latest(h, id).Some? ==> now - Latest(h, id).value > ttl
    decreases |h|
  {
    if h != [] {
      EntryIsLatestMark(ttl, h[..|h| - 1], id, h[|h| - 1].at);
    }
  }

  /** With a positive ttl, IsDuplicate says exactly whether the latest Mark of id is at most ttl old. */
  lemma {:induction false} AnswerIsHistory(ttl: int, h: seq<Event>, id: ID, now: int)
    requires ttl > 0 && Ordered(h, now)
    ensures Answer(SeenAfter(ttl, h), ttl, id, now) <==> MarkedWithin(h, ttl, id, now)
  {
    EntryIsLatestMark(ttl, h, id, now);
  }

  /** What Cleanup leaves: the messages whose latest Mark is at most ttl old, each with that Mark, and no other. */
  lemma {:induction false} SweepKeepsExactlyRecent(ttl: int, h: seq<Event>, id: ID, now: int)
    requires ttl > 0 && Ordered(h, now)
    ensures var seen := SeenAfter(ttl, h + [Sweep(now)]);
            && (id in seen <==> MarkedWithin(h, ttl, id, now))
            && (id in seen ==> seen[id] == Latest(h, id).value && now - seen[id] <= ttl)
  {
    EntryIsLatestMark(ttl, h, id, now);
    assert (h + [Sweep(now)])[..|h|] == h;
  }

  /** With a ttl that is not positive nothing expires: until a Cleanup, a message is a duplicate once it was marked. */
  lemma {:induction false} NothingExpires(ttl: int, h: seq<Event>, id: ID, now: int)
    requires ttl <= 0 && forall i | 0 <= i < |h| :: !h[i].Sweep?
    ensures Answer(SeenAfter(ttl, h), ttl, id, now) <==> Latest(h, id).Some?
    decreases |h|
  {
    if h != [] {
      NothingExpires(ttl, h[..|h| - 1], id, now);
    }
  }

  /** A history without its queries and sweeps. */
  function Marks(h: seq<Event>): seq<Event>
  {
    if h == [] then []
    else Marks(h[..|h| - 1]) + if h[|h| - 1].Mark? then [h[|h| - 1]] else []
  }

  lemma {:induction false} LatestOfMarks(h: seq<Event>, id: ID)
    ensures Latest(Marks(h), id) == Latest(h, id)
  {
    if h != [] {
      var rest, e := h[..|h| - 1], h[|h| - 1];
      LatestOfMarks(rest, id);
      if e.Mark? {
        assert Marks(h)[..|Marks(h)| - 1] == Marks(rest);
      } else {
        assert Marks(rest) + [] == Marks(rest);
      }
    }
  }

  /** Cleanup and lazy deletion cannot be noticed: the answer depends on the marks alone. */
  ghost predicate HousekeepingInvisible(ttl: int)
  {
    forall h1, h2, id, now | Ordered(h1, now) && Ordered(h2, now) && Marks(h1) == Marks(h2) ::
      Answer(SeenAfter(ttl, h1), ttl, id, now) == Answer(SeenAfter(ttl, h2), ttl, id, now)
  }

  /** That holds exactly for a positive ttl: without one, queries never expire an entry but Cleanup does. */
  lemma HousekeepingInvisibleExactly(ttl: int)
    ensures HousekeepingInvisible(ttl) <==> ttl > 0
  {
    if ttl > 0 {
      forall h1, h2, id, now | Ordered(h1, now) && Ordered(h2, now) && Marks(h1) == Marks(h2)
        ensures Answer(SeenAfter(ttl, h1), ttl, id, now) == Answer(SeenAfter(ttl, h2), ttl, id, now)
      {
        AnswerIsHistory(ttl, h1, id, now);
        AnswerIsHistory(ttl, h2, id, now);
        LatestOfMarks(h1, id);
        LatestOfMarks(h2, id);
      }
    } else {
      SweepIsVisible(ttl, "m");
      var h1, h2 := [Mark("m", 0)], [Mark("m", 0), Sweep(1)];
      assert Ordered(h1, 1) && Ordered(h2, 1) && Marks(h1) == Marks(h2);
      assert Answer(SeenAfter(ttl, h1), ttl, "m", 1) != Answer(SeenAfter(ttl, h2), ttl, "m", 1);
    }
  }

  lemma {:induction false} SweepIsVisible(ttl: int, id: ID)
    requires ttl <= 0
    ensures var h1, h2 := [Mark(id, 0)], [Mark(id, 0), Sweep(1)];
            && Ordered(h1, 1) && Ordered(h2, 1) && Marks(h1) == Marks(h2)
            && Answer(SeenAfter(ttl, h1), ttl, id, 1) && !Answer(SeenAfter(ttl, h2), ttl, id, 1)
  {
    var h1, h2 := [Mark(id, 0)], [Mark(id, 0), Sweep(1)];
    assert h2[..1] == h1 && h1[..0] == [];
    assert SeenAfter(ttl, h1) == map[id := 0];
    assert Marks(h1) == [Mark(id, 0)];
  }

  // ---------- the source's object ----------

  class MessageDeduplicator {
    const ttl: int
    var seen: Seen

    constructor (ttl: int)
      ensures this.ttl == ttl && seen == map[]
    {
      this.ttl, seen := ttl, map[];
    }

    method IsDuplicate(msgID: ID, now: int) returns (dup: bool)
      modifies this
      ensures dup == Answer(old(seen), ttl, msgID, now)
      ensures seen == AfterAsk(old(seen), ttl, msgID, now)
    {
      if msgID !in seen {
        return false;
      }
      var seenAt := seen[msgID];
      if ttl > 0 && now - seenAt > ttl {
        seen := seen - {msgID};
        return false;
      }
      return true;
    }

    method Mark(msgID: ID, now: int)
      modifies this
      ensures seen == AfterMark(old(seen), msgID, now)
    {
      seen := seen[msgID := now];
    }

    /** The keys are visited in any order. */
    method Cleanup(now: int)
      modifies this
      ensures seen == AfterSweep(old(seen), ttl, now)
    {
      var left := seen.Keys;
      while left != {}
        invariant left <= old(seen).Keys
        invariant forall id | id in old(seen) ::
                    if id in left || now - old(seen)[id] <= ttl then id in seen && seen[id] == old(seen)[id]
                    else id !in seen
        invariant seen.Keys <= old(seen).Keys
        decreases left
      {
        var id :| id in left;
        if now - seen[id] > ttl {
          seen := seen - {id};
        }
        left := left - {id};
      }
    }
  }
}

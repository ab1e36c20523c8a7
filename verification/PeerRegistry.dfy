/** The registry object of go/node/peer.go: the peer map, its KD-tree, and the queries on them. */
module PeerRegistry {
  import opened Bytes
  import opened Peers

  // ---------- nearest neighbour ----------

  /** Poindexter's Nearest by its contract: some point at the least distance from the ideal one. */
  method Nearest(tree: seq<Point>) returns (best: Point)
    requires tree != []
    ensures best in tree && forall p | p in tree :: Distance(best.coords) <= Distance(p.coords)
  {
    best := tree[0];
    for i := 0 to |tree|
      invariant best in tree
      invariant forall j | 0 <= j < i :: Distance(best.coords) <= Distance(tree[j].coords)
    {
      if Distance(tree[i].coords) < Distance(best.coords) {
        best := tree[i];
      }
    }
  }

  /** Any tree point at the least distance belongs to a registered peer of least weighted distance. */
  lemma NearestIsBestPeer(tree: seq<Point>, ps: PeerMap, best: Point)
    requires Keyed(ps) && IndexAgrees(tree, ps) && best in tree
    requires forall p | p in tree :: Distance(best.coords) <= Distance(p.coords)
    ensures best.id in ps && PointOf(ps[best.id]) == best
    ensures forall id | id in ps :: Distance(PointOf(ps[best.id]).coords) <= Distance(PointOf(ps[id]).coords)
  {
    assert best in PointsOf(ps);
    var id :| id in ps && PointOf(ps[id]) == best;
    forall id | id in ps ensures Distance(best.coords) <= Distance(PointOf(ps[id]).coords) {
      assert PointOf(ps[id]) in PointsOf(ps);
      assert PointOf(ps[id]) in tree;
    }
  }

  // ---------- top-k by distance ----------

  /** Coordinates when the peer has them, else its recorded distance; plus the difference in hops. */
  function Combined(p: Peer, latitude: real, longitude: real, hopCount: int): real
  {
    var dLat, dLon := p.latitude - latitude, p.longitude - longitude;
    var coordDistance :=
      if p.latitude == 0.0 && p.longitude == 0.0 then p.geoKM * p.geoKM else dLat * dLat + dLon * dLon;
    var hopDelta := (p.hops - hopCount) as real;
    coordDistance + hopDelta * hopDelta
  }

  /** The recorded distance counts only for a peer without coordinates, the place searched only for one with them. */
  lemma EitherCoordinatesOrDistance(p: Peer, km: real, lat: real, lon: real, lat': real, lon': real, hops: int)
    ensures !(p.latitude == 0.0 && p.longitude == 0.0) ==>
              Combined(p.(geoKM := km), lat, lon, hops) == Combined(p, lat, lon, hops)
    ensures p.latitude == 0.0 && p.longitude == 0.0 ==> Combined(p, lat', lon', hops) == Combined(p, lat, lon, hops)
  {
  }

  function Apart(a: real, b: real): real { if a < b then b - a else a - b }

  /** The three differences squared; a peer without coordinates has its recorded distance for the first two. */
  lemma CombinedIs(p: Peer, lat: real, lon: real, hops: int)
    ensures Combined(p, lat, lon, hops)
         == (if p.latitude == 0.0 && p.longitude == 0.0 then Square(p.geoKM)
             else Square(Apart(p.latitude, lat)) + Square(Apart(p.longitude, lon)))
            + Square(Apart(p.hops as real, hops as real))
  {
    SquareOfApart(p.latitude, lat);
    SquareOfApart(p.longitude, lon);
    SquareOfApart(p.hops as real, hops as real);
  }

  lemma SquareOfApart(a: real, b: real)
    ensures (a - b) * (a - b) == Square(Apart(a, b))
  {
  }

  /** A peer no farther than another in either coordinate and in hops is never farther. */
  lemma NearerCounts(p: Peer, q: Peer, lat: real, lon: real, hops: int)
    requires Apart(p.hops as real, hops as real) <= Apart(q.hops as real, hops as real)
    requires p.latitude == 0.0 && p.longitude == 0.0 <==> q.latitude == 0.0 && q.longitude == 0.0
    requires if p.latitude == 0.0 && p.longitude == 0.0 then 0.0 <= p.geoKM <= q.geoKM
             else Apart(p.latitude, lat) <= Apart(q.latitude, lat) && Apart(p.longitude, lon) <= Apart(q.longitude, lon)
    ensures 0.0 <= Combined(p, lat, lon, hops) <= Combined(q, lat, lon, hops)
  {
    hide Combined, Square;
    CombinedIs(p, lat, lon, hops);
    CombinedIs(q, lat, lon, hops);
    Squares(Apart(p.hops as real, hops as real), Apart(q.hops as real, hops as real));
    if p.latitude == 0.0 && p.longitude == 0.0 {
      Squares(p.geoKM, q.geoKM);
    } else {
      Squares(Apart(p.latitude, lat), Apart(q.latitude, lat));
      Squares(Apart(p.longitude, lon), Apart(q.longitude, lon));
    }
  }

  datatype Scored = Scored(peer: Peer, score: real)

  ghost predicate Sorted(ss: seq<Scored>)
  {
    forall i, j | 0 <= i < j < |ss| :: ss[i].score <= ss[j].score
  }

  function Insert(x: Scored, ss: seq<Scored>): (r: seq<Scored>)
  {
    if ss == [] || x.score < ss[0].score then [x] + ss else [ss[0]] + Insert(x, ss[1..])
  }

  lemma {:induction false} InsertHolds(x: Scored, ss: seq<Scored>)
    ensures multiset(Insert(x, ss)) == multiset(ss) + multiset{x}
  {
    if ss != [] && x.score >= ss[0].score {
      InsertHolds(x, ss[1..]);
      assert ss == [ss[0]] + ss[1..];
    }
  }

  lemma SortedCons(x: Scored, ss: seq<Scored>)
    requires Sorted(ss) && forall y | y in ss :: x.score <= y.score
    ensures Sorted([x] + ss)
  {
  }

  lemma {:induction false} InsertSorts(x: Scored, ss: seq<Scored>)
    requires Sorted(ss)
    ensures Sorted(Insert(x, ss))
  {
    if ss != [] && x.score >= ss[0].score {
      InsertSorts(x, ss[1..]);
      InsertHolds(x, ss[1..]);
      forall y | y in Insert(x, ss[1..]) ensures ss[0].score <= y.score {
        assert y in multiset(Insert(x, ss[1..]));
        assert y in multiset(ss[1..]) || y == x;
        if y != x {
          assert y in ss[1..];
        }
      }
      SortedCons(ss[0], Insert(x, ss[1..]));
    } else {
      SortedCons(x, ss);
    }
  }

  /** slices.SortFunc by score, here by insertion; ties may come out in any order. */
  method SortByScore(ss: seq<Scored>) returns (r: seq<Scored>)
    ensures Sorted(r) && multiset(r) == multiset(ss)
  {
    r := [];
    for i := 0 to |ss|
      invariant Sorted(r) && multiset(r) == multiset(ss[..i])
    {
      InsertHolds(ss[i], r);
      InsertSorts(ss[i], r);
      assert ss[..i + 1] == ss[..i] + [ss[i]];
      r := Insert(ss[i], r);
    }
    assert ss[..|ss|] == ss;
  }

  /** What FindNearby promises of its answer. */
  ghost predicate NearestPeers(out: seq<Peer>, ps: PeerMap, lat: real, lon: real, hops: int, maxResults: int)
  {
    && |out| == (if maxResults <= 0 then 0 else if maxResults < |ps| then maxResults else |ps|)
    && (forall i | 0 <= i < |out| :: out[i].id in ps && ps[out[i].id] == out[i])
    && (forall i, j | 0 <= i < j < |out| :: out[i].id != out[j].id)
    && (forall i, j | 0 <= i < j < |out| :: Combined(out[i], lat, lon, hops) <= Combined(out[j], lat, lon, hops))
    && (forall id, i | id in ps && ps[id] !in out && 0 <= i < |out| ::
          Combined(out[i], lat, lon, hops) <= Combined(ps[id], lat, lon, hops))
  }

  /** scored lists each registered peer once, with its distance. */
  ghost predicate ScoresAll(scored: seq<Scored>, ps: PeerMap, lat: real, lon: real, hops: int)
  {
    && |scored| == |ps|
    && (forall i | 0 <= i < |scored| ::
          && scored[i].peer.id in ps && ps[scored[i].peer.id] == scored[i].peer
          && scored[i].score == Combined(scored[i].peer, lat, lon, hops))
    && (forall i, j | 0 <= i < j < |scored| :: scored[i].peer.id != scored[j].peer.id)
    && (forall id | id in ps :: Listed(scored, ps[id]))
  }

  ghost predicate Listed(scored: seq<Scored>, p: Peer)
  {
    exists i :: 0 <= i < |scored| && scored[i].peer == p
  }

  /** scored lists each peer not in left once, with its distance, and no other. */
  ghost predicate ScoredSoFar(scored: seq<Scored>, ps: PeerMap, left: set<ID>, lat: real, lon: real, hops: int)
  {
    && (forall i | 0 <= i < |scored| ::
          && scored[i].peer.id in ps && scored[i].peer.id !in left && ps[scored[i].peer.id] == scored[i].peer
          && scored[i].score == Combined(scored[i].peer, lat, lon, hops))
    && (forall i, j | 0 <= i < j < |scored| :: scored[i].peer.id != scored[j].peer.id)
    && (forall id | id in ps && id !in left :: Listed(scored, ps[id]))
  }

  lemma ListedStays(scored: seq<Scored>, x: Scored, p: Peer)
    requires Listed(scored, p) || x.peer == p
    ensures Listed(scored + [x], p)
  {
    if Listed(scored, p) {
      var i :| 0 <= i < |scored| && scored[i].peer == p;
      assert (scored + [x])[i].peer == p;
    } else {
      assert (scored + [x])[|scored|].peer == p;
    }
  }

  lemma ScoreOne(scored: seq<Scored>, ps: PeerMap, left: set<ID>, lat: real, lon: real, hops: int, id: ID)
    requires Keyed(ps) && ScoredSoFar(scored, ps, left, lat, lon, hops) && id in left && id in ps
    ensures ScoredSoFar(scored + [Scored(ps[id], Combined(ps[id], lat, lon, hops))], ps, left - {id}, lat, lon, hops)
  {
    hide Combined, Listed;
    var x := Scored(ps[id], Combined(ps[id], lat, lon, hops));
    forall k | k in ps && k !in left - {id} ensures Listed(scored + [x], ps[k]) {
      ListedStays(scored, x, ps[k]);
    }
  }

  lemma CountTwice(r: seq<Scored>, i: nat, j: nat)
    requires i < j < |r| && r[i] == r[j]
    ensures multiset(r)[r[i]] >= 2
  {
    assert r == r[..j] + r[j..];
    assert r[i] in r[..j] && r[j] in r[j..];
    assert r[i] in multiset(r[..j]) && r[j] in multiset(r[j..]);
    assert multiset(r) == multiset(r[..j]) + multiset(r[j..]);
  }

  lemma {:induction false} CountOnce(ss: seq<Scored>, x: Scored)
    requires forall i, j | 0 <= i < j < |ss| :: ss[i].peer.id != ss[j].peer.id
    ensures multiset(ss)[x] <= 1
  {
    if ss != [] {
      CountOnce(ss[1..], x);
      assert ss == [ss[0]] + ss[1..];
      if ss[0] == x {
        assert x !in ss[1..];
      }
    }
  }

  /** Sorting keeps the list complete and free of repeats. */
  lemma SortedScoresAll(ss: seq<Scored>, r: seq<Scored>, ps: PeerMap, lat: real, lon: real, hops: int)
    requires ScoresAll(ss, ps, lat, lon, hops) && multiset(r) == multiset(ss)
    ensures ScoresAll(r, ps, lat, lon, hops)
  {
    assert |r| == |multiset(r)| && |ss| == |multiset(ss)|;
    forall i | 0 <= i < |r| ensures r[i] in ss {
      assert r[i] in multiset(r);
    }
    forall i, j | 0 <= i < j < |r| ensures r[i].peer.id != r[j].peer.id {
      if r[i].peer.id == r[j].peer.id {
        CountTwice(r, i, j);
        CountOnce(ss, r[i]);
      }
    }
    forall id | id in ps ensures Listed(r, ps[id]) {
      assert Listed(ss, ps[id]);
      var k :| 0 <= k < |ss| && ss[k].peer == ps[id];
      assert ss[k] in multiset(ss);
      assert ss[k] in r;
      var i :| 0 <= i < |r| && r[i] == ss[k];
    }
  }

  /** A peer that is not among the first entries comes after them. */
  lemma OmittedIsFarther(r: seq<Scored>, ps: PeerMap, lat: real, lon: real, hops: int, out: seq<Peer>, id: ID, i: nat)
    requires ScoresAll(r, ps, lat, lon, hops) && Sorted(r) && |out| <= |r|
    requires forall j | 0 <= j < |out| :: out[j] == r[j].peer
    requires id in ps && ps[id] !in out && i < |out|
    ensures Combined(out[i], lat, lon, hops) <= Combined(ps[id], lat, lon, hops)
  {
    hide Combined;
    assert Listed(r, ps[id]);
    var k :| 0 <= k < |r| && r[k].peer == ps[id];
    assert forall j | 0 <= j < |out| :: out[j] in out;
    assert r[i].score <= r[k].score;
  }

  /** The first entries of the sorted list are the nearest peers. */
  lemma PrefixIsNearest(r: seq<Scored>, ps: PeerMap, lat: real, lon: real, hops: int, maxResults: int, out: seq<Peer>)
    requires ScoresAll(r, ps, lat, lon, hops) && Sorted(r)
    requires |out| == (if maxResults <= 0 then 0 else if maxResults < |ps| then maxResults else |ps|)
    requires forall i | 0 <= i < |out| :: out[i] == r[i].peer
    ensures NearestPeers(out, ps, lat, lon, hops, maxResults)
  {
    hide Combined;
    forall id, i | id in ps && ps[id] !in out && 0 <= i < |out|
      ensures Combined(out[i], lat, lon, hops) <= Combined(ps[id], lat, lon, hops)
    {
      OmittedIsFarther(r, ps, lat, lon, hops, out, id, i);
    }
  }

  /** The loop that copies the first entries. */
  method FirstPeers(sorted: seq<Scored>, limit: nat) returns (out: seq<Peer>)
    requires limit <= |sorted|
    ensures |out| == limit && forall i | 0 <= i < limit :: out[i] == sorted[i].peer
  {
    out := [];
    for i := 0 to limit
      invariant |out| == i && forall j | 0 <= j < i :: out[j] == sorted[j].peer
    {
      out := out + [sorted[i].peer];
    }
  }

  // ---------- the object ----------

  class Registry {
    var peers: PeerMap
    var kdTree: seq<Point>  // [] for a nil tree
    var dirty: bool
    var timerSet: bool      // saveTimer != nil

    ghost predicate Valid()
      reads this
    {
      Keyed(peers) && IndexAgrees(kdTree, peers)
    }

    /** NewPeerRegistry: what the file held, each peer stored under its own ID. */
    constructor (loaded: seq<Peer>)
      ensures Valid() && !dirty && !timerSet
      ensures peers == Loaded(loaded)
    {
      peers := Loaded(loaded);
      kdTree := [];
      dirty, timerSet := false, false;
      new;
      LoadedKeyed(loaded);
      RebuildKDTree(true);
    }

    /** The points arrive in map order, which is any order.  If NewKDTree refuses them the old tree stays. */
    method RebuildKDTree(accepted: bool)
      requires Keyed(peers)
      modifies this`kdTree
      ensures accepted || peers == map[] ==> IndexAgrees(kdTree, peers)
      ensures !accepted && peers != map[] ==> kdTree == old(kdTree)
    {
      if |peers| == 0 {
        kdTree := [];
        return;
      }
      var points: seq<Point> := [];
      var left := peers.Keys;
      while left != {}
        invariant left <= peers.Keys
        invariant |points| + |left| == |peers.Keys|
        invariant forall p :: p in points <==> exists id :: id in peers && id !in left && PointOf(peers[id]) == p
        decreases left
      {
        var id :| id in left;
        points := points + [PointOf(peers[id])];
        left := left - {id};
      }
      if !accepted {
        return;
      }
      kdTree := points;
    }

    method ScheduleSave()
      modifies this`dirty, this`timerSet
      ensures dirty && timerSet
    {
      dirty := true;
      if timerSet {
        return;
      }
      timerSet := true;
    }

    method AddPeer(peer: Peer, now: int) returns (ok: bool)
      requires Valid()
      modifies this
      ensures Valid() && ok == Applies(old(peers), Mutation.AddPeer(peer, now))
      ensures Did(old(peers), old(dirty), old(timerSet), Mutation.AddPeer(peer, now))
    {
      if peer.id == "" || !ValidName(peer.name) || peer.id in peers {
        return false;
      }
      var p := peer;
      if p.addedAt == 0 {
        p := p.(addedAt := now);
      }
      if p.score == 0.0 {
        p := p.(score := 50.0);
      }
      peers := peers[p.id := p];
      RebuildKDTree(true);
      ScheduleSave();
      ok := true;
    }

    method UpdatePeer(peer: Peer) returns (ok: bool)
      requires Valid()
      modifies this
      ensures Valid() && ok == Applies(old(peers), Mutation.UpdatePeer(peer))
      ensures Did(old(peers), old(dirty), old(timerSet), Mutation.UpdatePeer(peer))
    {
      if peer.id !in peers {
        return false;
      }
      peers := peers[peer.id := peer];
      RebuildKDTree(true);
      ScheduleSave();
      ok := true;
    }

    method RemovePeer(id: ID) returns (ok: bool)
      requires Valid()
      modifies this
      ensures Valid() && ok == Applies(old(peers), Mutation.RemovePeer(id))
      ensures Did(old(peers), old(dirty), old(timerSet), Mutation.RemovePeer(id))
    {
      if id !in peers {
        return false;
      }
      peers := peers - {id};
      RebuildKDTree(true);
      ScheduleSave();
      ok := true;
    }

    method UpdateMetrics(id: ID, pingMS: real, geoKM: real, hops: int, now: int) returns (ok: bool)
      requires Valid()
      modifies this
      ensures Valid() && ok == Applies(old(peers), Mutation.UpdateMetrics(id, pingMS, geoKM, hops, now))
      ensures Did(old(peers), old(dirty), old(timerSet), Mutation.UpdateMetrics(id, pingMS, geoKM, hops, now))
    {
      if id !in peers {
        return false;
      }
      var peer := peers[id];
      peer := peer.(pingMS := pingMS);
      peer := peer.(geoKM := geoKM);
      peer := peer.(hops := hops);
      peer := peer.(lastSeen := now);
      peers := peers[id := peer];
      RebuildKDTree(true);
      ScheduleSave();
      ok := true;
    }

    method UpdateScore(id: ID, score: real) returns (ok: bool)
      requires Valid()
      modifies this
      ensures Valid() && ok == Applies(old(peers), Mutation.UpdateScore(id, score))
      ensures Did(old(peers), old(dirty), old(timerSet), Mutation.UpdateScore(id, score))
    {
      if id !in peers {
        return false;
      }
      var clamped := Max(0.0, Min(score, 100.0));
      peers := peers[id := peers[id].(score := clamped)];
      RebuildKDTree(true);
      ScheduleSave();
      ok := true;
    }

    method SetConnected(id: ID, connected: bool, now: int) returns (ok: bool)
      requires Valid()
      modifies this
      ensures Valid() && ok == Applies(old(peers), Mutation.SetConnected(id, connected, now))
      ensures Did(old(peers), old(dirty), old(timerSet), Mutation.SetConnected(id, connected, now))
    {
      if id !in peers {
        return false;
      }
      ghost var before := peers;
      var peer := peers[id].(connected := connected);
      if connected {
        peer := peer.(lastSeen := now);
      }
      peers := peers[id := peer];
      UnindexedMutationKeepsPoints(before, Mutation.SetConnected(id, connected, now));
      if connected {
        ScheduleSave();
      }
      ok := true;
    }

    method MarkSeen(id: ID, now: int) returns (ok: bool)
      requires Valid()
      modifies this
      ensures Valid() && ok == Applies(old(peers), Mutation.MarkSeen(id, now))
      ensures Did(old(peers), old(dirty), old(timerSet), Mutation.MarkSeen(id, now))
    {
      if id !in peers {
        return false;
      }
      ghost var before := peers;
      peers := peers[id := peers[id].(lastSeen := now)];
      UnindexedMutationKeepsPoints(before, Mutation.MarkSeen(id, now));
      ScheduleSave();
      ok := true;
    }

    method RecordSuccess(id: ID, now: int) returns (ok: bool)
      requires Valid()
      modifies this
      ensures Valid() && ok == Applies(old(peers), Mutation.RecordSuccess(id, now))
      ensures Did(old(peers), old(dirty), old(timerSet), Mutation.RecordSuccess(id, now))
    {
      if id !in peers {
        return false;
      }
      var peer := peers[id];
      peer := peer.(score := Min(peer.score + 1.0, 100.0));
      peer := peer.(lastSeen := now);
      peers := peers[id := peer];
      RebuildKDTree(true);
      ScheduleSave();
      ok := true;
    }

    method RecordFailure(id: ID, now: int) returns (ok: bool)
      requires Valid()
      modifies this
      ensures Valid() && ok == Applies(old(peers), Mutation.RecordFailure(id, now))
      ensures Did(old(peers), old(dirty), old(timerSet), Mutation.RecordFailure(id, now))
    {
      if id !in peers {
        return false;
      }
      var peer := peers[id];
      peer := peer.(score := Max(peer.score - 5.0, 0.0));
      peer := peer.(lastSeen := now);
      peers := peers[id := peer];
      RebuildKDTree(true);
      ScheduleSave();
      ok := true;
    }

    method RecordTimeout(id: ID, now: int) returns (ok: bool)
      requires Valid()
      modifies this
      ensures Valid() && ok == Applies(old(peers), Mutation.RecordTimeout(id, now))
      ensures Did(old(peers), old(dirty), old(timerSet), Mutation.RecordTimeout(id, now))
    {
      if id !in peers {
        return false;
      }
      var peer := peers[id];
      peer := peer.(score := Max(peer.score - 3.0, 0.0));
      peer := peer.(lastSeen := now);
      peers := peers[id := peer];
      RebuildKDTree(true);
      ScheduleSave();
      ok := true;
    }

    /** The registered peer of least weighted distance, if there is any peer. */
    method SelectOptimalPeer() returns (best: Option<Peer>)
      requires Valid()
      ensures best.None? <==> peers == map[]
      ensures best.Some? ==>
                && best.value.id in peers && peers[best.value.id] == best.value
                && forall id | id in peers ::
                     Distance(PointOf(best.value).coords) <= Distance(PointOf(peers[id]).coords)
    {
      if kdTree == [] || peers == map[] {
        if kdTree == [] {
          assert peers == map[];
        }
        return None;
      }
      var result := Nearest(kdTree);
      NearestIsBestPeer(kdTree, peers, result);
      if result.id !in peers {
        return None;
      }
      best := Some(peers[result.id]);
    }

    method FindNearby(latitude: real, longitude: real, hopCount: int, maxResults: int) returns (out: seq<Peer>)
      requires Valid()
      ensures NearestPeers(out, peers, latitude, longitude, hopCount, maxResults)
    {
      if maxResults <= 0 || |peers| == 0 {
        return [];
      }
      hide NearestPeers, Sorted, Combined;
      var scored := ScoreAll(latitude, longitude, hopCount);
      var sorted := SortByScore(scored);
      SortedScoresAll(scored, sorted, peers, latitude, longitude, hopCount);
      var limit := if maxResults < |sorted| then maxResults else |sorted|;
      out := FirstPeers(sorted, limit);
      PrefixIsNearest(sorted, peers, latitude, longitude, hopCount, maxResults, out);
    }

    /** The loop over the peers, in map order, which is any order. */
    method ScoreAll(latitude: real, longitude: real, hopCount: int) returns (scored: seq<Scored>)
      requires Valid()
      ensures ScoresAll(scored, peers, latitude, longitude, hopCount)
    {
      scored := [];
      var left := peers.Keys;
      while left != {}
        invariant left <= peers.Keys && |scored| + |left| == |peers.Keys|
        invariant ScoredSoFar(scored, peers, left, latitude, longitude, hopCount)
        decreases left
      {
        var id :| id in left;
        ScoreOne(scored, peers, left, latitude, longitude, hopCount, id);
        var peer := peers[id];
        scored := scored + [Scored(peer, Combined(peer, latitude, longitude, hopCount))];
        left := left - {id};
      }
    }

    /** The state a mutator leaves: the new map, a save scheduled if it is due, nothing else touched. */
    ghost predicate Did(before: PeerMap, wasDirty: bool, hadTimer: bool, m: Mutation)
      reads this
    {
      && peers == Mutate(before, m)
      && dirty == (wasDirty || Saves(before, m))
      && timerSet == (hadTimer || Saves(before, m))
    }
  }

  function Loaded(ps: seq<Peer>): PeerMap
  {
    if ps == [] then map[] else Loaded(ps[..|ps| - 1])[ps[|ps| - 1].id := ps[|ps| - 1]]
  }

  /** Every ID in the file is loaded, and the last peer with it is kept. */
  lemma {:induction false} LoadedIsLast(ps: seq<Peer>, i: nat)
    requires i < |ps| && forall j | i < j < |ps| :: ps[j].id != ps[i].id
    ensures ps[i].id in Loaded(ps) && Loaded(ps)[ps[i].id] == ps[i]
  {
    if i < |ps| - 1 {
      LoadedIsLast(ps[..|ps| - 1], i);
    }
  }

  lemma {:induction false} LoadedWasListed(ps: seq<Peer>, id: ID)
    requires id in Loaded(ps)
    ensures Loaded(ps)[id] in ps && Loaded(ps)[id].id == id
  {
    if ps[|ps| - 1].id != id {
      LoadedWasListed(ps[..|ps| - 1], id);
    }
  }

  /** The file is an array of the saved peers in map order, which is any order. */
  ghost predicate ListOf(list: seq<Peer>, f: PeerMap)
  {
    && (forall i | 0 <= i < |list| :: list[i].id in f && f[list[i].id] == list[i])
    && (forall i, j | 0 <= i < j < |list| :: list[i].id != list[j].id)
    && (forall id | id in f :: f[id] in list)
  }

  /** Loading what was saved gives back every peer, in every field but the connection state. */
  lemma {:induction false} RestartKeepsPeers(ps: PeerMap, list: seq<Peer>)
    requires Keyed(ps) && ListOf(list, SavedMap(ps))
    ensures Written(Loaded(list), ps)
  {
    var f := SavedMap(ps);
    forall id | id in f ensures id in Loaded(list) && Loaded(list)[id] == f[id] {
      var i :| 0 <= i < |list| && list[i] == f[id];
      LoadedIsLast(list, i);
    }
    forall id | id in Loaded(list) ensures id in f {
      LoadedWasListed(list, id);
    }
    assert Loaded(list) == f;
    WrittenIsSaved(f, ps);
  }

  lemma {:induction false} LoadedKeyed(ps: seq<Peer>)
    ensures Keyed(Loaded(ps))
  {
    if ps != [] {
      LoadedKeyed(ps[..|ps| - 1]);
    }
  }
}

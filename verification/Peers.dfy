/** Peers and the operations that change them (go/node/peer.go), as functions on the peer map. */
module Peers {

  type ID = string

  /** Times are integers, with 0 for Go's zero time; floats are reals. */
  datatype Peer = Peer(
    id: ID, name: string, publicKey: string, address: string, role: string,
    addedAt: int, lastSeen: int,
    latitude: real, longitude: real,
    pingMS: real, hops: int, geoKM: real, score: real,
    connected: bool)

  type PeerMap = map<ID, Peer>

  const PEER_NAME_MAX: nat := 64

  predicate Alphanumeric(c: char)
  {
    'a' <= c <= 'z' || 'A' <= c <= 'Z' || '0' <= c <= '9'
  }

  predicate NameChar(c: char)
  {
    Alphanumeric(c) || c == '-' || c == '_' || c == ' '
  }

  /** Empty, or 1 to 64 allowed characters with an alphanumeric one at each end. */
  predicate ValidName(name: string)
  {
    name == "" ||
    (&& |name| <= PEER_NAME_MAX
     && Alphanumeric(name[0]) && Alphanumeric(name[|name| - 1])
     && forall c | c in name :: NameChar(c))
  }

  /** The source's pattern: one alphanumeric, or two around up to 62 allowed characters. */
  ghost predicate MatchesPattern(name: string)
  {
    || (|name| == 1 && Alphanumeric(name[0]))
    || exists a, middle, b :: Bracketed(name, a, middle, b)
  }

  predicate Bracketed(name: string, a: char, middle: string, b: char)
  {
    && name == [a] + middle + [b] && |middle| <= 62 && Alphanumeric(a) && Alphanumeric(b)
    && forall c | c in middle :: NameChar(c)
  }

  lemma ValidNameIsPattern(name: string)
    ensures ValidName(name) <==> name == "" || MatchesPattern(name)
  {
    if |name| >= 2 {
      var n := |name|;
      assert name == [name[0]] + name[1..n - 1] + [name[n - 1]];
      if ValidName(name) {
        assert Bracketed(name, name[0], name[1..n - 1], name[n - 1]);
      }
    }
  }

  /** The mutators; now is the clock reading that those which store the time use. */
  datatype Mutation =
    | AddPeer(peer: Peer, now: int)
    | UpdatePeer(peer: Peer)
    | RemovePeer(id: ID)
    | UpdateMetrics(id: ID, pingMS: real, geoKM: real, hops: int, now: int)
    | UpdateScore(id: ID, score: real)
    | SetConnected(id: ID, connected: bool, now: int)
    | MarkSeen(id: ID, now: int)
    | RecordSuccess(id: ID, now: int)
    | RecordFailure(id: ID, now: int)
    | RecordTimeout(id: ID, now: int)

  function Min(a: real, b: real): real { if a < b then a else b }
  function Max(a: real, b: real): real { if a > b then a else b }

  /** AddPeer fills in the time of addition and a neutral score. */
  function WithDefaults(p: Peer, now: int): Peer
  {
    p.(addedAt := if p.addedAt == 0 then now else p.addedAt, score := if p.score == 0.0 then 50.0 else p.score)
  }

  /** Whether a mutation goes through; the others change nothing and save nothing. */
  predicate Applies(ps: PeerMap, m: Mutation)
  {
    match m
    case AddPeer(p, _) => p.id != "" && ValidName(p.name) && p.id !in ps
    case UpdatePeer(p) => p.id in ps
    case _ => m.id in ps
  }

  function Changed(ps: PeerMap, m: Mutation): PeerMap
    requires Applies(ps, m)
  {
    match m
    case AddPeer(p, now) => ps[p.id := WithDefaults(p, now)]
    case UpdatePeer(p) => ps[p.id := p]
    case RemovePeer(id) => ps - {id}
    case UpdateMetrics(id, ping, geo, hops, now) =>
      ps[id := ps[id].(pingMS := ping, geoKM := geo, hops := hops, lastSeen := now)]
    case UpdateScore(id, score) => ps[id := ps[id].(score := Max(0.0, Min(score, 100.0)))]
    case SetConnected(id, c, now) => ps[id := ps[id].(connected := c, lastSeen := if c then now else ps[id].lastSeen)]
    case MarkSeen(id, now) => ps[id := ps[id].(lastSeen := now)]
    case RecordSuccess(id, now) => ps[id := ps[id].(score := Min(ps[id].score + 1.0, 100.0), lastSeen := now)]
    case RecordFailure(id, now) => ps[id := ps[id].(score := Max(ps[id].score - 5.0, 0.0), lastSeen := now)]
    case RecordTimeout(id, now) => ps[id := ps[id].(score := Max(ps[id].score - 3.0, 0.0), lastSeen := now)]
  }

  function Mutate(ps: PeerMap, m: Mutation): PeerMap
  {
    if Applies(ps, m) then Changed(ps, m) else ps
  }

  // ---------- what the mutators do ----------

  function Target(m: Mutation): ID
  {
    if m.AddPeer? || m.UpdatePeer? then m.peer.id else m.id
  }

  /** No mutator touches another peer. */
  lemma OthersAreLeftAlone(ps: PeerMap, m: Mutation, id: ID)
    requires id != Target(m)
    ensures id in Mutate(ps, m) <==> id in ps
    ensures id in ps ==> Mutate(ps, m)[id] == ps[id]
  {
  }

  /** So mutations of different peers commute. */
  lemma DifferentPeersCommute(ps: PeerMap, m1: Mutation, m2: Mutation)
    requires Target(m1) != Target(m2)
    ensures Mutate(Mutate(ps, m1), m2) == Mutate(Mutate(ps, m2), m1)
  {
    var a, b := Mutate(Mutate(ps, m1), m2), Mutate(Mutate(ps, m2), m1);
    OthersAreLeftAlone(ps, m1, Target(m2));
    OthersAreLeftAlone(ps, m2, Target(m1));
    OthersAreLeftAlone(Mutate(ps, m1), m2, Target(m1));
    OthersAreLeftAlone(Mutate(ps, m2), m1, Target(m2));
    SameOnTarget(ps, Mutate(ps, m1), m2);
    SameOnTarget(ps, Mutate(ps, m2), m1);
    hide Mutate;
    forall id ensures id in a <==> id in b
              ensures id in a && id in b ==> a[id] == b[id]
    {
      if id != Target(m1) && id != Target(m2) {
        OthersAreLeftAlone(ps, m1, id);
        OthersAreLeftAlone(Mutate(ps, m1), m2, id);
        OthersAreLeftAlone(ps, m2, id);
        OthersAreLeftAlone(Mutate(ps, m2), m1, id);
      }
    }
  }

  /** What becomes of its own peer depends on that peer alone. */
  lemma SameOnTarget(ps: PeerMap, qs: PeerMap, m: Mutation)
    requires Target(m) in ps <==> Target(m) in qs
    requires Target(m) in ps ==> qs[Target(m)] == ps[Target(m)]
    ensures Target(m) in Mutate(ps, m) <==> Target(m) in Mutate(qs, m)
    ensures Target(m) in Mutate(ps, m) ==> Mutate(qs, m)[Target(m)] == Mutate(ps, m)[Target(m)]
  {
  }

  /** RemovePeer undoes AddPeer. */
  lemma RemoveUndoesAdd(ps: PeerMap, p: Peer, now: int)
    requires Applies(ps, AddPeer(p, now))
    ensures p.id in Mutate(ps, AddPeer(p, now)) && Mutate(Mutate(ps, AddPeer(p, now)), RemovePeer(p.id)) == ps
  {
  }

  /** The mutators that store the time they run at. */
  predicate Times(m: Mutation)
  {
    || m.UpdateMetrics? || m.MarkSeen? || (m.SetConnected? && m.connected)
    || m.RecordSuccess? || m.RecordFailure? || m.RecordTimeout?
  }

  predicate Scores(m: Mutation)
  {
    m.UpdateScore? || m.RecordSuccess? || m.RecordFailure? || m.RecordTimeout?
  }

  /** Field by field, which mutators of an existing peer change it. */
  lemma FieldsChange(ps: PeerMap, m: Mutation)
    requires Applies(ps, m) && !m.AddPeer? && !m.UpdatePeer? && !m.RemovePeer?
    ensures m.id in Mutate(ps, m)
    ensures var p, q := ps[m.id], Mutate(ps, m)[m.id];
            && q == p.(lastSeen := q.lastSeen, connected := q.connected, pingMS := q.pingMS, hops := q.hops,
                       geoKM := q.geoKM, score := q.score)
            && q.lastSeen == (if Times(m) then m.now else p.lastSeen)
            && q.connected == (if m.SetConnected? then m.connected else p.connected)
            && (q.pingMS, q.hops, q.geoKM)
               == (if m.UpdateMetrics? then (m.pingMS, m.hops, m.geoKM) else (p.pingMS, p.hops, p.geoKM))
            && (!Scores(m) ==> q.score == p.score)
  {
  }

  predicate ScoreOk(score: real)
  {
    0.0 <= score <= 100.0
  }

  function Gap(a: real, b: real): real { if a < b then b - a else a - b }

  /** UpdateScore stores the score in 0..100 that is nearest to the one given. */
  lemma ScoreIsClamped(ps: PeerMap, id: ID, score: real, other: real)
    requires id in ps && ScoreOk(other)
    ensures id in Mutate(ps, UpdateScore(id, score))
    ensures var stored := Mutate(ps, UpdateScore(id, score))[id].score;
            ScoreOk(stored) && Gap(stored, score) <= Gap(other, score)
  {
  }

  /** A success never lowers a score, a timeout or a failure never raises it, and a failure costs the most. */
  lemma ScoresMove(ps: PeerMap, id: ID, now: int)
    requires id in ps && ScoreOk(ps[id].score)
    ensures id in Mutate(ps, RecordSuccess(id, now)) && id in Mutate(ps, RecordTimeout(id, now))
         && id in Mutate(ps, RecordFailure(id, now))
    ensures var score, up, down, far := ps[id].score, Mutate(ps, RecordSuccess(id, now))[id].score,
              Mutate(ps, RecordTimeout(id, now))[id].score, Mutate(ps, RecordFailure(id, now))[id].score;
            && 0.0 <= far <= down <= score <= up <= 100.0
            && (score < 100.0 ==> score < up) && (0.0 < score ==> down < score) && (0.0 < down ==> far < down)
            && (score >= 5.0 ==> score - far == 5.0) && (score >= 3.0 ==> score - down == 3.0)
            && (score <= 99.0 ==> up - score == 1.0)
  {
  }

  ghost predicate ScoresOk(ps: PeerMap)
  {
    forall id | id in ps :: ScoreOk(ps[id].score)
  }

  /** Scores stay in 0..100 as long as the peers given are. */
  lemma ScoresStayOk(ps: PeerMap, m: Mutation)
    requires ScoresOk(ps) && (m.AddPeer? || m.UpdatePeer? ==> ScoreOk(m.peer.score))
    ensures ScoresOk(Mutate(ps, m))
  {
  }

  /** A peer is added as it was given, with the time and a middling score only where it had none. */
  lemma AddKeepsWhatIsGiven(ps: PeerMap, p: Peer, now: int)
    requires Applies(ps, AddPeer(p, now))
    ensures p.id in Mutate(ps, AddPeer(p, now))
    ensures var q := Mutate(ps, AddPeer(p, now))[p.id];
            && q.(addedAt := p.addedAt, score := p.score) == p
            && (if p.addedAt == 0 then q.addedAt == now else q.addedAt == p.addedAt)
            && (if p.score == 0.0 then Gap(q.score, 0.0) == Gap(q.score, 100.0) else q.score == p.score)
  {
  }

  /** UpdatePeer replaces the whole peer, whatever was done to it before. */
  lemma UpdateReplaces(ps: PeerMap, p: Peer, m: Mutation)
    requires p.id in ps && Target(m) == p.id && !m.RemovePeer?
    ensures p.id in Mutate(ps, UpdatePeer(p)) && Mutate(ps, UpdatePeer(p))[p.id] == p
    ensures Mutate(Mutate(ps, m), UpdatePeer(p)) == Mutate(ps, UpdatePeer(p))
  {
  }

  /** Whether the mutator calls save() afterwards. */
  predicate Saves(ps: PeerMap, m: Mutation)
  {
    Applies(ps, m) && !(m.SetConnected? && !m.connected)
  }

  /** Whether the mutator rebuilds the KD-tree. */
  predicate Rebuilds(ps: PeerMap, m: Mutation)
  {
    Applies(ps, m) && !m.SetConnected? && !m.MarkSeen?
  }

  /** Every peer is stored under its own ID. */
  ghost predicate Keyed(ps: PeerMap)
  {
    forall id | id in ps :: ps[id].id == id
  }

  // ---------- what is on disk ----------

  /** The connection state is not written to the file. */
  function Saved(p: Peer): Peer
  {
    p.(connected := false)
  }

  function SavedMap(ps: PeerMap): PeerMap
  {
    map id | id in ps :: Saved(ps[id])
  }

  /** The file has every peer, in every field but the connection state, which is false in it. */
  predicate Written(f: PeerMap, ps: PeerMap)
  {
    f.Keys == ps.Keys && forall id | id in ps :: !f[id].connected && f[id].(connected := ps[id].connected) == ps[id]
  }

  lemma WrittenIsSaved(f: PeerMap, ps: PeerMap)
    ensures Written(f, ps) <==> f == SavedMap(ps)
  {
    if Written(f, ps) {
      forall id | id in ps ensures f[id] == Saved(ps[id]) {
      }
      assert f == SavedMap(ps);
    }
  }

  /** A mutation that is not followed by save() changes nothing that is saved. */
  lemma UnsavedMutationKeepsFile(ps: PeerMap, m: Mutation)
    requires !Saves(ps, m)
    ensures SavedMap(Mutate(ps, m)) == SavedMap(ps)
  {
  }

  /** A peer like p except in the time it was last seen, its ping and its score. */
  function Differing(p: Peer, lastSeen: int, pingMS: real, score: real): Peer
  {
    p.(lastSeen := lastSeen, pingMS := pingMS, score := score)
  }

  /** A map that m turns into another, if m can: one in which its peer has other metrics, score and time. */
  function Before(ps: PeerMap, m: Mutation): PeerMap
    requires Applies(ps, m)
  {
    if m.AddPeer? then map[]
    else if m.RemovePeer? then map[m.id := ps[m.id]]
    else if m.UpdatePeer? then map[m.peer.id := Differing(m.peer, m.peer.lastSeen + 1, m.peer.pingMS + 1.0, 0.0)]
    else if m.UpdateMetrics? then map[m.id := Differing(ps[m.id], m.now + 1, m.pingMS + 1.0, 0.0)]
    else if m.UpdateScore? then map[m.id := Differing(ps[m.id], 0, 0.0, -1.0)]
    else if m.SetConnected? || m.MarkSeen? then map[m.id := Differing(ps[m.id], m.now + 1, 0.0, 0.0)]
    else map[m.id := Differing(ps[m.id], m.now + 1, 0.0, 50.0)]
  }

  /** A mutator saves exactly if there are peers for which it changes what is saved. */
  lemma SavesExactlyIfItCanMatter(ps: PeerMap, m: Mutation)
    requires Applies(ps, m)
    ensures Saves(ps, m) <==> exists qs :: Applies(qs, m) && SavedMap(Mutate(qs, m)) != SavedMap(qs)
  {
    if Saves(ps, m) {
      var qs, id := Before(ps, m), Target(m);
      assert id in SavedMap(Mutate(qs, m)) && id in SavedMap(qs) ==> SavedMap(Mutate(qs, m))[id] != SavedMap(qs)[id];
      assert Applies(qs, m) && SavedMap(Mutate(qs, m)) != SavedMap(qs);
    } else {
      forall qs | Applies(qs, m) ensures SavedMap(Mutate(qs, m)) == SavedMap(qs) {
        UnsavedMutationKeepsFile(qs, m);
      }
    }
  }

  // ---------- the point of a peer in the KD-tree ----------

  datatype Coords = Coords(ping: real, hops: real, geo: real, score: real)

  datatype Point = Point(id: ID, coords: Coords)

  /** Weighted metrics, with the score turned round so that smaller is better in each dimension. */
  function PointOf(p: Peer): Point
  {
    Point(p.id, Coords(p.pingMS * 1.0, p.hops as real * 0.7, p.geoKM * 0.2, (100.0 - p.score) * 1.2))
  }

  /** The square of the Euclidean distance to the ideal peer at the origin. */
  function Distance(c: Coords): real
  {
    c.ping * c.ping + c.hops * c.hops + c.geo * c.geo + c.score * c.score
  }

  function Square(x: real): real { x * x }

  lemma Product(a: real, b: real)
    requires a > 0.0 && b > 0.0
    ensures a * b > 0.0
  {
  }

  lemma Squares(x: real, y: real)
    requires 0.0 <= x <= y
    ensures 0.0 <= Square(x) <= Square(y) && (x < y ==> Square(x) < Square(y))
  {
    assert y * y - x * x == (y - x) * (y + x);
    if x < y {
      Product(y - x, y + x);
    }
  }

  predicate Sensible(p: Peer)
  {
    p.pingMS >= 0.0 && p.hops >= 0 && p.geoKM >= 0.0 && p.score <= 100.0
  }

  /** No worse in any metric. */
  predicate AtLeastAsGood(p: Peer, q: Peer)
  {
    p.pingMS <= q.pingMS && p.hops <= q.hops && p.geoKM <= q.geoKM && p.score >= q.score
  }

  /** A peer no worse in any metric is never farther from the ideal, and it is nearer if it is better in one. */
  lemma BetterIsNearer(p: Peer, q: Peer)
    requires Sensible(p) && Sensible(q) && AtLeastAsGood(p, q)
    ensures Distance(PointOf(p).coords) <= Distance(PointOf(q).coords)
    ensures !AtLeastAsGood(q, p) ==> Distance(PointOf(p).coords) < Distance(PointOf(q).coords)
  {
    var a, b := PointOf(p).coords, PointOf(q).coords;
    Squares(a.ping, b.ping);
    Squares(a.hops, b.hops);
    Squares(a.geo, b.geo);
    Squares(a.score, b.score);
  }

  ghost function PointsOf(ps: PeerMap): set<Point>
  {
    set id | id in ps :: PointOf(ps[id])
  }

  /** The tree holds one point for each registered peer, and no tree stands for no peers. */
  ghost predicate IndexAgrees(tree: seq<Point>, ps: PeerMap)
  {
    |tree| == |ps| && forall p :: p in tree <==> p in PointsOf(ps)
  }

  /** A mutation that skips the rebuild moves no point. */
  lemma UnindexedMutationKeepsPoints(ps: PeerMap, m: Mutation)
    requires !Rebuilds(ps, m)
    ensures PointsOf(Mutate(ps, m)) == PointsOf(ps) && |Mutate(ps, m)| == |ps|
  {
    if Applies(ps, m) {
      var ps' := Mutate(ps, m);
      assert ps'.Keys == ps.Keys;
      assert |ps'.Keys| == |ps'| && |ps.Keys| == |ps|;
      assert PointOf(ps'[m.id]) == PointOf(ps[m.id]);
      forall id | id in ps ensures PointOf(ps'[id]) == PointOf(ps[id]) {
      }
    }
  }

  lemma OnePoint(id: ID, p: Peer)
    ensures PointsOf(map[id := p]) == {PointOf(p)}
  {
    var ps := map[id := p];
    forall x ensures x in PointsOf(ps) <==> x == PointOf(p) {
      if x == PointOf(p) {
        assert id in ps && PointOf(ps[id]) == x;
      }
    }
  }

  /** A mutator rebuilds the tree exactly if there are peers for which it moves a point. */
  lemma RebuildsExactlyIfItCanMatter(ps: PeerMap, m: Mutation)
    requires Applies(ps, m)
    ensures Rebuilds(ps, m) <==> exists qs :: Applies(qs, m) && PointsOf(Mutate(qs, m)) != PointsOf(qs)
  {
    if Rebuilds(ps, m) {
      MovesAPoint(ps, m);
    } else {
      forall qs | Applies(qs, m) ensures PointsOf(Mutate(qs, m)) == PointsOf(qs) {
        UnindexedMutationKeepsPoints(qs, m);
      }
    }
  }

  lemma MovesAPoint(ps: PeerMap, m: Mutation)
    requires Rebuilds(ps, m)
    ensures Applies(Before(ps, m), m) && PointsOf(Mutate(Before(ps, m), m)) != PointsOf(Before(ps, m))
  {
    var qs, id := Before(ps, m), Target(m);
    var qs' := Mutate(qs, m);
    if !m.AddPeer? {
      OnePoint(id, qs[id]);
      assert qs == map[id := qs[id]];
    }
    if !m.RemovePeer? {
      OnePoint(id, qs'[id]);
      assert qs' == map[id := qs'[id]];
    } else {
      assert qs' == map[];
    }
  }
}

/** Replay families stepped in place: bodies move, pairs stay, and every run keeps to its own pair's orbit. */
module ReplayLayout {
  import opened Text
  import opened Reals
  import opened ReplayOrbits

  class Body {
    var x: real
    var y: real
    var vx: real
    var vy: real
    const id: string
    const pinned: bool

    constructor (name: string, at: Point, fixed: bool)
      ensures Spot() == at && id == name && pinned == fixed
    {
      x, y, vx, vy, id, pinned := at.x, at.y, 0.0, 0.0, name, fixed;
    }

    ghost function Spot(): Point
      reads this
    {
      Point(x, y)
    }

    ghost function State(): Motion
      reads this
    {
      Motion(x, y, vx, vy)
    }

    method SpringTo(hypot: (real, real) -> real, pair: Point, radius: real, away: Point)
      modifies this
      ensures State() == Sprung(hypot, old(State()), pair, radius, away)
    {
      hide Pull;
      var dx, dy := x - pair.x, y - pair.y;
      var distance := hypot(dx, dy);
      if distance < 0.01 { dx, dy, distance := away.x * 0.01, away.y * 0.01, 0.01; }
      vx := vx - Pull(dx, distance, radius);
      vy := vy - Pull(dy, distance, radius);
    }

    method PushFrom(hypot: (real, real) -> real, other: Point)
      modifies this
      ensures State() == Pushed(hypot, old(State()), other)
    {
      var gap := Max(1.0, hypot(x - other.x, y - other.y));
      assert gap * gap >= 1.0;
      vx := vx + (x - other.x) / gap * REPULSION / (gap * gap);
      vy := vy + (y - other.y) / gap * REPULSION / (gap * gap);
    }

    method Drift()
      modifies this
      ensures State() == Drifted(old(State()))
    {
      vx := vx * DAMPING;
      vy := vy * DAMPING;
      x := x + vx * STEP;
      y := y + vy * STEP;
    }

    method KeepIn(hypot: (real, real) -> real, pair: Point, limit: real)
      requires limit >= 0.0
      modifies this
      ensures State() == Kept(hypot, old(State()), pair, limit)
    {
      var dx, dy := x - pair.x, y - pair.y;
      var distance := hypot(dx, dy);
      if distance > limit {
        x := pair.x + dx / distance * limit;
        y := pair.y + dy / distance * limit;
        vx, vy := 0.0, 0.0;
      }
    }

    /** One run's whole step. */
    method StepOnce(hypot: (real, real) -> real, pair: Point, radius: real, limit: real, away: Point, others: seq<Point>)
      requires limit >= 0.0
      modifies this
      ensures State() == Stepped(hypot, old(State()), pair, radius, limit, away, others)
    {
      hide Sprung, Pushed, Drifted, Kept;
      SpringTo(hypot, pair, radius, away);
      ghost var start := State();
      for i := 0 to |others|
        invariant State() == PushedByAll(hypot, start, others[..i])
      {
        assert others[..i + 1][..i] == others[..i];
        PushFrom(hypot, others[i]);
      }
      assert others[..|others|] == others;
      Drift();
      KeepIn(hypot, pair, limit);
    }
  }

  /** One pair and the runs that circle it. */
  class Family {
    const pair: Body
    const runs: seq<Body>

    constructor (centre: Body, members: seq<Body>)
      ensures pair == centre && runs == members
    {
      pair, runs := centre, members;
    }
  }

  /** What drives the step: the distance function, pi, and the direction each run leaves its pair in. */
  datatype World = World(hypot: (real, real) -> real, pi: real, away: string -> Point)

  ghost predicate Physical(w: World) {
    IsHypot(w.hypot) && w.pi > 0.0
  }

  // ----- the orbit limit

  function Smaller(a: Option<real>, b: real): Option<real> {
    if a.None? || b < a.value then Some(b) else a
  }

  /** The distance to the nearest other pair, None when there is no other. */
  ghost function NearestTo(w: World, at: Point, others: seq<Point>): Option<real> {
    if others == [] then None else Smaller(NearestTo(w, at, others[..|others| - 1]), Distance(w.hypot, at, others[|others| - 1]))
  }

  function LimitFor(radius: real, nearest: Option<real>): real {
    if nearest.Some? && nearest.value * 0.49 < radius * ORBIT_LIMIT then nearest.value * 0.49 else radius * ORBIT_LIMIT
  }

  lemma {:induction false} NearestIsLeast(w: World, at: Point, others: seq<Point>)
    requires Physical(w)
    ensures NearestTo(w, at, others).Some? ==> NearestTo(w, at, others).value >= 0.0
    ensures forall o :: o in others ==> NearestTo(w, at, others).Some? && NearestTo(w, at, others).value <= Distance(w.hypot, at, o)
  {
    if others != [] {
      NearestIsLeast(w, at, others[..|others| - 1]);
      assert others == others[..|others| - 1] + [others[|others| - 1]];
    }
  }

  ghost function Elsewhere(families: seq<Family>, pair: Body): seq<Point>
    reads set f | f in families :: f.pair
  {
    if families == [] then []
    else
      var f := families[|families| - 1];
      Elsewhere(families[..|families| - 1], pair) + if f.pair != pair then [f.pair.Spot()] else []
  }

  ghost function Limit(w: World, families: seq<Family>, f: Family): real
    requires w.pi > 0.0
    reads f.pair, set g | g in families :: g.pair
  {
    LimitFor(FamilyRadius(|f.runs|, w.pi), NearestTo(w, f.pair.Spot(), Elsewhere(families, f.pair)))
  }

  lemma LimitIsSafe(w: World, families: seq<Family>, f: Family)
    requires Physical(w)
    ensures 0.0 <= Limit(w, families, f) <= FamilyRadius(|f.runs|, w.pi) * ORBIT_LIMIT
    ensures forall g :: g in families && g.pair != f.pair ==>
      Limit(w, families, f) <= 0.49 * Distance(w.hypot, f.pair.Spot(), g.pair.Spot())
  {
    NearestIsLeast(w, f.pair.Spot(), Elsewhere(families, f.pair));
    forall g | g in families && g.pair != f.pair ensures g.pair.Spot() in Elsewhere(families, f.pair) {
      OthersListed(families, f.pair, g);
    }
  }

  lemma {:induction false} OthersListed(families: seq<Family>, pair: Body, g: Family)
    requires g in families && g.pair != pair
    ensures g.pair.Spot() in Elsewhere(families, pair)
  {
    var init := families[..|families| - 1];
    assert families == init + [families[|families| - 1]];
    if g in init { OthersListed(init, pair, g); }
  }

  // ----- the step over all families

  ghost function PairsOf(families: seq<Family>): set<Body> {
    set f | f in families :: f.pair
  }

  ghost function RunsOf(families: seq<Family>): set<Body> {
    set f, b | f in families && b in f.runs :: b
  }

  /** Pairs are never runs, and no run circles two pairs. */
  ghost predicate Separate(families: seq<Family>) {
    && PairsOf(families) !! RunsOf(families)
    && (forall i, j, b :: 0 <= i < j < |families| && b in families[i].runs ==> b !in families[j].runs)
    && (forall i, j :: 0 <= i < j < |families| ==> families[i].pair != families[j].pair)
    && (forall i, a, b :: 0 <= i < |families| && 0 <= a < b < |families[i].runs| ==> families[i].runs[a] != families[i].runs[b])
  }

  method Nearest(w: World, families: seq<Family>, pair: Body) returns (nearest: Option<real>)
    ensures nearest == NearestTo(w, pair.Spot(), Elsewhere(families, pair))
  {
    nearest := None;
    for i := 0 to |families|
      invariant nearest == NearestTo(w, pair.Spot(), Elsewhere(families[..i], pair))
    {
      assert families[..i + 1][..i] == families[..i];
      var other := families[i].pair;
      if other != pair {
        ghost var before := Elsewhere(families[..i], pair);
        assert (before + [other.Spot()])[..|before|] == before;
        nearest := Smaller(nearest, w.hypot(other.x - pair.x, other.y - pair.y));
      } else {
        assert Elsewhere(families[..i], pair) + [] == Elsewhere(families[..i], pair);
      }
    }
    assert families[..|families|] == families;
  }

  method OtherSpots(runs: seq<Body>, own: Body) returns (spots: seq<Point>)
  {
    spots := [];
    for i := 0 to |runs| {
      if runs[i] != own { spots := spots + [Point(runs[i].x, runs[i].y)]; }
    }
  }

  ghost function Members(runs: seq<Body>): set<Body> {
    set b | b in runs
  }

  ghost predicate Inside(w: World, pair: Body, b: Body, limit: real)
    reads pair, b
  {
    !b.pinned ==> Distance(w.hypot, pair.Spot(), b.Spot()) <= limit
  }

  /** One family: every run that is not pinned takes its step and ends inside the limit. */
  method StepFamily(w: World, f: Family, radius: real, limit: real)
    requires Physical(w) && limit >= 0.0 && f.pair !in f.runs
    requires forall a, b :: 0 <= a < b < |f.runs| ==> f.runs[a] != f.runs[b]
    modifies Members(f.runs)
    ensures forall b :: b in f.runs ==> Inside(w, f.pair, b, limit)
    ensures forall b :: b in f.runs && b.pinned ==> b.State() == old(b.State())
  {
    var centre := Point(f.pair.x, f.pair.y);
    for i := 0 to |f.runs|
      invariant f.pair.Spot() == centre
      invariant forall k :: 0 <= k < i ==> Inside(w, f.pair, f.runs[k], limit)
      invariant forall b :: b in f.runs && b.pinned ==> b.State() == old(b.State())
    {
      var body := f.runs[i];
      if !body.pinned {
        var others := OtherSpots(f.runs, body);
        ghost var before := body.State();
        body.StepOnce(w.hypot, centre, radius, limit, w.away(body.id), others);
        SteppedStaysInOrbit(w.hypot, before, centre, radius, limit, w.away(body.id), others);
      }
      assert Inside(w, f.pair, f.runs[i], limit);
    }
  }

  ghost predicate AllInOrbit(w: World, families: seq<Family>, n: nat)
    requires w.pi > 0.0 && n <= |families|
    reads PairsOf(families), RunsOf(families)
  {
    forall i, b :: 0 <= i < n && b in families[i].runs ==> Inside(w, families[i].pair, b, Limit(w, families, families[i]))
  }

  lemma MembersAreRuns(families: seq<Family>, i: nat)
    requires i < |families| && Separate(families)
    ensures Members(families[i].runs) <= RunsOf(families) && Members(families[i].runs) !! PairsOf(families)
    ensures families[i].pair in PairsOf(families) && families[i].pair !in families[i].runs
  {
    var f := families[i];
    assert f in families && f.pair in PairsOf(families);
    forall b | b in f.runs ensures b in RunsOf(families) {}
  }

  lemma OtherRuns(families: seq<Family>, i: nat, j: nat)
    requires i < |families| && j < |families| && i != j && Separate(families)
    ensures Members(families[i].runs) !! Members(families[j].runs)
  {
    if i < j {
      assert forall b :: b in families[i].runs ==> b !in families[j].runs;
    } else {
      assert forall b :: b in families[j].runs ==> b !in families[i].runs;
    }
  }

  /** Family i steps; every other family's runs, every pair and so every limit stay as they were. */
  method StepOneOf(w: World, families: seq<Family>, i: nat)
    requires Physical(w) && Separate(families) && i < |families|
    modifies Members(families[i].runs)
    ensures forall b :: b in families[i].runs ==> Inside(w, families[i].pair, b, Limit(w, families, families[i]))
    ensures forall b :: b in families[i].runs && b.pinned ==> b.State() == old(b.State())
    ensures forall p :: p in PairsOf(families) ==> p.State() == old(p.State())
    ensures forall j :: 0 <= j < |families| ==> Limit(w, families, families[j]) == old(Limit(w, families, families[j]))
  {
    var f := families[i];
    assert f in families;
    MembersAreRuns(families, i);
    var radius := FamilyRadius(|f.runs|, w.pi);
    var nearest := Nearest(w, families, f.pair);
    var limit := LimitFor(radius, nearest);
    LimitIsSafe(w, families, f);
    StepFamily(w, f, radius, limit);
  }

  /** stepReplayFamilies: every unpinned run ends the step inside its own pair's limit; pairs and pinned runs do not move. */
  method StepReplayFamilies(w: World, families: seq<Family>)
    requires Physical(w) && Separate(families)
    modifies RunsOf(families)
    ensures AllInOrbit(w, families, |families|)
    ensures forall b :: b in RunsOf(families) && b.pinned ==> b.State() == old(b.State())
  {
    hide Limit;
    for i := 0 to |families|
      invariant AllInOrbit(w, families, i)
      invariant forall b :: b in RunsOf(families) && b.pinned ==> b.State() == old(b.State())
    {
      MembersAreRuns(families, i);
      forall k | 0 <= k < i ensures Members(families[k].runs) !! Members(families[i].runs) && families[k].pair in PairsOf(families) {
        OtherRuns(families, k, i);
        MembersAreRuns(families, k);
      }
      StepOneOf(w, families, i);
    }
  }

  /** settle, on replay families alone: from orbit, or after one step from anywhere, every unpinned run is in orbit. */
  method SettleReplays(w: World, families: seq<Family>, steps: nat)
    requires Physical(w) && Separate(families)
    modifies RunsOf(families)
    ensures steps > 0 || old(AllInOrbit(w, families, |families|)) ==> AllInOrbit(w, families, |families|)
    ensures steps == 0 ==> forall b :: b in RunsOf(families) ==> b.State() == old(b.State())
    ensures forall b :: b in RunsOf(families) && b.pinned ==> b.State() == old(b.State())
  {
    for i := 0 to steps
      invariant i > 0 || old(AllInOrbit(w, families, |families|)) ==> AllInOrbit(w, families, |families|)
      invariant i == 0 ==> forall b :: b in RunsOf(families) ==> b.State() == old(b.State())
      invariant forall b :: b in RunsOf(families) && b.pinned ==> b.State() == old(b.State())
    {
      StepReplayFamilies(w, families);
    }
  }

  // ----- what being in orbit means

  /** Wherever the pairs are, as long as no two coincide, an unpinned run is strictly nearer its own pair than any other. */
  lemma OrbitIsNearest(w: World, families: seq<Family>, i: nat, j: nat, b: Body)
    requires Physical(w) && Separate(families) && i < |families| && j < |families| && i != j
    requires AllInOrbit(w, families, |families|) && b in families[i].runs && !b.pinned
    requires Distance(w.hypot, families[i].pair.Spot(), families[j].pair.Spot()) > 0.0
    ensures Distance(w.hypot, families[i].pair.Spot(), b.Spot()) < Distance(w.hypot, families[j].pair.Spot(), b.Spot())
  {
    var f, g := families[i], families[j];
    assert f in families && g in families && f.pair != g.pair;
    LimitIsSafe(w, families, f);
    assert Inside(w, f.pair, b, Limit(w, families, f));
    NearerItsOwn(w.hypot, b.Spot(), f.pair.Spot(), g.pair.Spot());
  }
}

/**
 Which versions a dependency requirement admits that an advisory marks
 affected, decided at finitely many sample versions.
 */
module AdvisoryFloors {
  import opened Wrappers

  datatype Version = Version(major: nat, minor: nat, patch: nat)
  {
    /** The order of Python tuples. */
    predicate Lt(v: Version) {
      major < v.major || (major == v.major && (minor < v.minor || (minor == v.minor && patch < v.patch)))
    }

    predicate Le(v: Version) {
      this == v || Lt(v)
    }

    function NextPatch(): Version {
      Version(major, minor, patch + 1)
    }
  }

  datatype Op = Ge | Le | Gt | Lt | Eq | Caret | Tilde

  /**
   One comparator: an operator and the parts of its version; `Unreadable`
   matches nothing. `more` are the further version texts found in the
   comparator's text, readable or not.
   */
  datatype Comparator =
    | Comparator(op: Op, parts: seq<nat>, more: seq<seq<nat>>)
    | Unreadable(more: seq<seq<nat>>)

  type Requirement = seq<Comparator>

  /** The patched and the unaffected requirements of an advisory, in that order. */
  type Advisory = seq<Requirement>

  ghost predicate WellFormed(c: Comparator) {
    c.Comparator? ==> 1 <= |c.parts|
  }

  ghost predicate AdvisoryOk(a: Advisory) {
    forall i, j :: 0 <= i < |a| && 0 <= j < |a[i]| ==> WellFormed(a[i][j])
  }

  /** `parse_version`: missing parts are zero. */
  function Parse(parts: seq<nat>): Version {
    Version(if |parts| > 0 then parts[0] else 0, if |parts| > 1 then parts[1] else 0,
            if |parts| > 2 then parts[2] else 0)
  }

  function CaretUpper(parts: seq<nat>): Version {
    var v := Parse(parts);
    if v.major > 0 || |parts| == 1 then Version(v.major + 1, 0, 0)
    else if v.minor > 0 || |parts| == 2 then Version(0, v.minor + 1, 0)
    else Version(0, 0, v.patch + 1)
  }

  function TildeUpper(parts: seq<nat>): Version {
    var v := Parse(parts);
    if |parts| > 1 then Version(v.major, v.minor + 1, 0) else Version(v.major + 1, 0, 0)
  }

  predicate Matches(c: Comparator, v: Version) {
    match c
    case Unreadable(_) => false
    case Comparator(op, parts, _) =>
      var bound := Parse(parts);
      match op
      case Ge => bound.Le(v)
      case Le => v.Le(bound)
      case Gt => bound.Lt(v)
      case Lt => v.Lt(bound)
      case Eq => v == bound
      case Caret => bound.Le(v) && v.Lt(CaretUpper(parts))
      case Tilde => bound.Le(v) && v.Lt(TildeUpper(parts))
  }

  /** `v` comes before `x.y.z`, component by component. */
  predicate Precedes(v: Version, x: nat, y: nat, z: nat) {
    || v.major < x
    || (v.major == x && v.minor < y)
    || (v.major == x && v.minor == y && v.patch < z)
  }

  /**
   What each comparator says about the components of a version. `^` keeps the
   leftmost part that is not zero, `~` keeps major and minor.
   */
  lemma ComparatorMeaning(x: nat, y: nat, z: nat, more: seq<seq<nat>>, v: Version)
    ensures Matches(Comparator(Ge, [x, y, z], more), v) <==> !Precedes(v, x, y, z)
    ensures Matches(Comparator(Lt, [x, y, z], more), v) <==> Precedes(v, x, y, z)
    ensures Matches(Comparator(Gt, [x, y, z], more), v) <==> !Precedes(v, x, y, z + 1)
    ensures Matches(Comparator(Le, [x, y, z], more), v) <==> Precedes(v, x, y, z + 1)
    ensures Matches(Comparator(Eq, [x, y, z], more), v) <==> v.major == x && v.minor == y && v.patch == z
    ensures Matches(Comparator(Caret, [x, y, z], more), v) <==>
              && v.major == x && !Precedes(v, x, y, z)
              && (x == 0 ==> v.minor == y) && (x == 0 && y == 0 ==> v.patch == z)
    ensures Matches(Comparator(Tilde, [x, y, z], more), v) <==> v.major == x && v.minor == y && v.patch >= z
  {
  }

  /** Missing parts are zero, except that `^` and `~` then leave those parts open. */
  lemma ShortComparatorMeaning(op: Op, x: nat, y: nat, more: seq<seq<nat>>, v: Version)
    ensures op != Caret && op != Tilde ==>
              (Matches(Comparator(op, [x, y], more), v) <==> Matches(Comparator(op, [x, y, 0], more), v))
    ensures op != Caret && op != Tilde ==>
              (Matches(Comparator(op, [x], more), v) <==> Matches(Comparator(op, [x, 0, 0], more), v))
    ensures Matches(Comparator(Caret, [x, y], more), v) <==> v.major == x && v.minor >= y && (x == 0 ==> v.minor == y)
    ensures Matches(Comparator(Tilde, [x, y], more), v) <==> v.major == x && v.minor == y
    ensures Matches(Comparator(Caret, [x], more), v) <==> v.major == x
    ensures Matches(Comparator(Tilde, [x], more), v) <==> v.major == x
  {
  }

  predicate ReqMatches(r: Requirement, v: Version) {
    forall i :: 0 <= i < |r| ==> Matches(r[i], v)
  }

  predicate Affected(a: Advisory, v: Version) {
    forall i :: 0 <= i < |a| ==> !ReqMatches(a[i], v)
  }

  predicate InRange(v: Version, low: Version, high: Version) {
    low.Le(v) && v.Lt(high)
  }

  // ---- the sample versions ----

  /** A version and its next patch. */
  function Near(parts: seq<nat>): set<Version> {
    {Parse(parts), Parse(parts).NextPatch()}
  }

  /** The samples a comparator contributes: every version its text names, with the next patch. */
  function Samples(c: Comparator): set<Version> {
    (if c.Comparator? then Near(c.parts) else {}) + set parts, v | parts in c.more && v in Near(parts) :: v
  }

  ghost predicate IsSample(a: Advisory, low: Version, p: Version) {
    p == low || exists i, j :: 0 <= i < |a| && 0 <= j < |a[i]| && p in Samples(a[i][j])
  }

  /** `hit` is the least sample in the range that is affected, or none is. */
  ghost predicate IsFirstSample(a: Advisory, low: Version, high: Version, hit: Option<Version>) {
    match hit
    case None => forall p :: IsSample(a, low, p) && InRange(p, low, high) ==> !Affected(a, p)
    case Some(h) =>
      && IsSample(a, low, h) && InRange(h, low, high) && Affected(a, h)
      && forall p :: IsSample(a, low, p) && InRange(p, low, high) && Affected(a, p) ==> h.Le(p)
  }

  method CollectPoints(a: Advisory, low: Version) returns (points: set<Version>)
    ensures forall p :: p in points <==> IsSample(a, low, p)
  {
    points := {low};
    for i := 0 to |a|
      invariant forall p :: p in points <==>
        p == low || exists k, j :: 0 <= k < i && 0 <= j < |a[k]| && p in Samples(a[k][j])
    {
      ghost var before := points;
      for j := 0 to |a[i]|
        invariant forall p :: p in points <==> p in before || exists k :: 0 <= k < j && p in Samples(a[i][k])
      {
        points := points + Samples(a[i][j]);
      }
    }
  }

  /** The least of a set of versions. */
  method Least(points: set<Version>) returns (least: Version)
    requires points != {}
    ensures least in points && forall p :: p in points ==> least.Le(p)
  {
    least :| least in points;
    var todo := points - {least};
    while todo != {}
      invariant least in points && todo <= points
      invariant forall p :: p in points && p !in todo ==> least.Le(p)
      decreases todo
    {
      var p :| p in todo;
      todo := todo - {p};
      if p.Lt(least) {
        least := p;
      }
    }
  }

  /** Scan the sample versions in order for the first affected one in the range. */
  method FirstAffected(a: Advisory, low: Version, high: Version) returns (hit: Option<Version>)
    ensures IsFirstSample(a, low, high, hit)
  {
    var points := CollectPoints(a, low);
    var todo := points;
    while todo != {}
      invariant todo <= points
      invariant forall p, q :: p in points && p !in todo && q in todo ==> p.Le(q)
      invariant forall p :: p in points && p !in todo && InRange(p, low, high) ==> !Affected(a, p)
      decreases todo
    {
      var v := Least(todo);
      if InRange(v, low, high) && Affected(a, v) {
        forall p | IsSample(a, low, p) && InRange(p, low, high) && Affected(a, p) ensures v.Le(p) {
          assert p in points;
        }
        return Some(v);
      }
      todo := todo - {v};
    }
    return None;
  }

  // ---- why samples decide ----

  /** Where the truth of a comparator can change. */
  function Cuts(c: Comparator): set<Version> {
    match c
    case Unreadable(_) => {}
    case Comparator(Caret, parts, _) => {Parse(parts), CaretUpper(parts)}
    case Comparator(Tilde, parts, _) => {Parse(parts), TildeUpper(parts)}
    case Comparator(_, parts, _) => Near(parts)
  }

  ghost predicate IsCut(a: Advisory, low: Version, p: Version) {
    p == low || exists i, j :: 0 <= i < |a| && 0 <= j < |a[i]| && p in Cuts(a[i][j])
  }

  /** No cut lies strictly above `p` and up to `v`. */
  ghost predicate NoCutBetween(a: Advisory, low: Version, p: Version, v: Version) {
    forall c :: IsCut(a, low, c) && c.Le(v) ==> c.Le(p)
  }

  lemma MatchesBetweenCuts(c: Comparator, p: Version, v: Version)
    requires p.Le(v) && forall x :: x in Cuts(c) && x.Le(v) ==> x.Le(p)
    ensures Matches(c, p) <==> Matches(c, v)
  {
    if c.Comparator? {
      var b := Parse(c.parts);
      match c.op
      case Caret => assert b in Cuts(c) && CaretUpper(c.parts) in Cuts(c);
      case Tilde => assert b in Cuts(c) && TildeUpper(c.parts) in Cuts(c);
      case _ => assert b in Cuts(c) && b.NextPatch() in Cuts(c);
    }
  }

  lemma AffectedBetweenCuts(a: Advisory, low: Version, p: Version, v: Version)
    requires p.Le(v) && NoCutBetween(a, low, p, v)
    ensures Affected(a, p) <==> Affected(a, v)
  {
    forall i | 0 <= i < |a| ensures ReqMatches(a[i], p) <==> ReqMatches(a[i], v) {
      forall j | 0 <= j < |a[i]| ensures Matches(a[i][j], p) <==> Matches(a[i][j], v) {
        forall x | x in Cuts(a[i][j]) && x.Le(v) ensures x.Le(p) {
          assert IsCut(a, low, x);
        }
        MatchesBetweenCuts(a[i][j], p, v);
      }
    }
  }

  /** No cut of the comparator lies above `p` and up to `v`. */
  ghost predicate PassedBy(c: Comparator, p: Version, v: Version) {
    forall x :: x in Cuts(c) && x.Le(v) ==> x.Le(p)
  }

  /** Below any version in the range there is a last cut, and nothing changes from there on. */
  lemma LastCut(a: Advisory, low: Version, v: Version) returns (p: Version)
    requires low.Le(v)
    ensures IsCut(a, low, p) && low.Le(p) && p.Le(v) && NoCutBetween(a, low, p, v)
  {
    p := low;
    for i := 0 to |a|
      invariant IsCut(a, low, p) && low.Le(p) && p.Le(v)
      invariant forall k, j :: 0 <= k < i && 0 <= j < |a[k]| ==> PassedBy(a[k][j], p, v)
    {
      var q := LastCutOf(a, low, v, p, i);
      forall k, j | 0 <= k <= i && 0 <= j < |a[k]| ensures PassedBy(a[k][j], q, v) {
        assert k < i ==> PassedBy(a[k][j], p, v);
      }
      p := q;
    }
    forall c | IsCut(a, low, c) && c.Le(v) ensures c.Le(p) {
      if c != low {
        var i, j :| 0 <= i < |a| && 0 <= j < |a[i]| && c in Cuts(a[i][j]);
        assert PassedBy(a[i][j], p, v);
      }
    }
  }

  /** The later of `p` and the cuts of one requirement up to `v`. */
  lemma LastCutOf(a: Advisory, low: Version, v: Version, p: Version, i: nat) returns (q: Version)
    requires IsCut(a, low, p) && low.Le(p) && p.Le(v) && i < |a|
    ensures IsCut(a, low, q) && p.Le(q) && low.Le(q) && q.Le(v)
    ensures forall j :: 0 <= j < |a[i]| ==> PassedBy(a[i][j], q, v)
  {
    q := p;
    for j := 0 to |a[i]|
      invariant IsCut(a, low, q) && p.Le(q) && low.Le(q) && q.Le(v)
      invariant forall l :: 0 <= l < j ==> PassedBy(a[i][l], q, v)
    {
      var r := LaterCut(a, low, v, q, i, j);
      forall l | 0 <= l <= j ensures PassedBy(a[i][l], r, v) {
        assert l < j ==> PassedBy(a[i][l], q, v);
      }
      q := r;
    }
  }

  /** The later of `p` and the cuts of one comparator up to `v`. */
  lemma LaterCut(a: Advisory, low: Version, v: Version, p: Version, i: nat, j: nat) returns (q: Version)
    requires IsCut(a, low, p) && low.Le(p) && p.Le(v) && i < |a| && j < |a[i]|
    ensures IsCut(a, low, q) && p.Le(q) && low.Le(q) && q.Le(v)
    ensures PassedBy(a[i][j], q, v)
  {
    q := p;
    var todo := Cuts(a[i][j]);
    while todo != {}
      invariant todo <= Cuts(a[i][j])
      invariant IsCut(a, low, q) && p.Le(q) && low.Le(q) && q.Le(v)
      invariant forall x :: x in Cuts(a[i][j]) && x !in todo && x.Le(v) ==> x.Le(q)
      decreases todo
    {
      var x :| x in todo;
      todo := todo - {x};
      if q.Lt(x) && x.Le(v) {
        assert x in Cuts(a[i][j]);
        q := x;
      }
    }
  }

  // ---- exactness ----

  /** `hit` is the least affected version in the range, or none is affected. */
  ghost predicate IsFirstAffected(a: Advisory, low: Version, high: Version, hit: Option<Version>) {
    match hit
    case None => forall v :: InRange(v, low, high) ==> !Affected(a, v)
    case Some(h) =>
      InRange(h, low, high) && Affected(a, h) && forall v :: InRange(v, low, high) && Affected(a, v) ==> h.Le(v)
  }

  /** Every affected upper end of a caret or tilde that is not a sample has an affected sample before it. */
  ghost predicate UppersCovered(a: Advisory, low: Version, high: Version) {
    forall u :: IsCut(a, low, u) && !IsSample(a, low, u) && InRange(u, low, high) && Affected(a, u) ==>
      exists p :: IsSample(a, low, p) && InRange(p, low, high) && Affected(a, p) && p.Lt(u)
  }

  /** An affected version has an affected cut at or before it, in the same range. */
  lemma AffectedCut(a: Advisory, low: Version, high: Version, v: Version) returns (p: Version)
    requires InRange(v, low, high) && Affected(a, v)
    ensures IsCut(a, low, p) && InRange(p, low, high) && Affected(a, p) && p.Le(v)
  {
    p := LastCut(a, low, v);
    AffectedBetweenCuts(a, low, p, v);
  }

  /** An affected version has an affected sample at or before it, as long as the upper ends are covered. */
  lemma AffectedSample(a: Advisory, low: Version, high: Version, v: Version) returns (p: Version)
    requires InRange(v, low, high) && Affected(a, v) && UppersCovered(a, low, high)
    ensures IsSample(a, low, p) && InRange(p, low, high) && Affected(a, p) && p.Le(v)
  {
    p := AffectedCut(a, low, high, v);
    if !IsSample(a, low, p) {
      var u := p;
      p :| IsSample(a, low, p) && InRange(p, low, high) && Affected(a, p) && p.Lt(u);
    }
  }

  /** Sampling finds the least affected version exactly when the unsampled upper ends are covered. */
  lemma SamplingIsExactIff(a: Advisory, low: Version, high: Version, hit: Option<Version>)
    requires IsFirstSample(a, low, high, hit)
    ensures IsFirstAffected(a, low, high, hit) <==> UppersCovered(a, low, high)
  {
    if UppersCovered(a, low, high) {
      forall v | InRange(v, low, high) && Affected(a, v) ensures hit.Some? && hit.value.Le(v) {
        var p := AffectedSample(a, low, high, v);
      }
    }
    if IsFirstAffected(a, low, high, hit) {
      forall u | IsCut(a, low, u) && !IsSample(a, low, u) && InRange(u, low, high) && Affected(a, u)
        ensures exists p :: IsSample(a, low, p) && InRange(p, low, high) && Affected(a, p) && p.Lt(u)
      {
        assert hit.Some? && hit.value.Le(u) && IsSample(a, low, hit.value);
      }
    }
  }

  /** The advisory is written without caret and tilde. */
  ghost predicate OrderOnly(a: Advisory) {
    forall i, j :: 0 <= i < |a| && 0 <= j < |a[i]| ==>
      !(a[i][j].Comparator? && (a[i][j].op == Caret || a[i][j].op == Tilde))
  }

  lemma OrderCuts(c: Comparator)
    requires !(c.Comparator? && (c.op == Caret || c.op == Tilde))
    ensures Cuts(c) <= Samples(c)
  {
  }

  /** With `>=`, `<=`, `>`, `<` and `=` alone every cut is a sample, so the scan is exact on every range. */
  lemma OrderOnlyIsExact(a: Advisory, low: Version, high: Version, hit: Option<Version>)
    requires OrderOnly(a) && IsFirstSample(a, low, high, hit)
    ensures IsFirstAffected(a, low, high, hit)
  {
    hide Cuts, Samples, Affected, IsFirstSample, IsFirstAffected;
    forall u | IsCut(a, low, u) ensures IsSample(a, low, u) {
      if u != low {
        var i, j :| 0 <= i < |a| && 0 <= j < |a[i]| && u in Cuts(a[i][j]);
        OrderCuts(a[i][j]);
      }
    }
    SamplingIsExactIff(a, low, high, hit);
  }

  // ---- caret requirements ----

  /** The versions a caret or bare requirement admits: its floor, and the first version beyond it. */
  function RequirementRange(parts: seq<nat>): (Version, Version) {
    (Parse(parts), CaretUpper(parts))
  }

  ghost predicate NoTilde(a: Advisory) {
    forall i, j :: 0 <= i < |a| && 0 <= j < |a[i]| ==> !(a[i][j].Comparator? && a[i][j].op == Tilde)
  }

  /** Inside the range of a caret requirement other than a bare `0`, the upper end of a caret is a sample or the floor. */
  lemma CaretUpperSampled(parts: seq<nat>, req: seq<nat>)
    requires 1 <= |parts| && 1 <= |req| <= 3 && !(|req| == 1 && req[0] == 0)
    requires InRange(CaretUpper(parts), RequirementRange(req).0, RequirementRange(req).1)
    ensures CaretUpper(parts) == RequirementRange(req).0 || CaretUpper(parts) in Near(parts)
  {
  }

  /** For the requirements the check reads, other than a bare `0`, only tildes can be missed. */
  lemma RequirementsAreExact(a: Advisory, req: seq<nat>, hit: Option<Version>)
    requires AdvisoryOk(a) && NoTilde(a) && 1 <= |req| <= 3 && !(|req| == 1 && req[0] == 0)
    requires IsFirstSample(a, RequirementRange(req).0, RequirementRange(req).1, hit)
    ensures IsFirstAffected(a, RequirementRange(req).0, RequirementRange(req).1, hit)
  {
    var (low, high) := RequirementRange(req);
    forall u | IsCut(a, low, u) && InRange(u, low, high) ensures IsSample(a, low, u) {
      if u != low {
        var i, j :| 0 <= i < |a| && 0 <= j < |a[i]| && u in Cuts(a[i][j]);
        assert WellFormed(a[i][j]);
        if a[i][j].op == Caret && u == CaretUpper(a[i][j].parts) {
          CaretUpperSampled(a[i][j].parts, req);
        }
        assert u in Samples(a[i][j]);
      }
    }
    SamplingIsExactIff(a, low, high, hit);
  }

  function Plain(op: Op, parts: seq<nat>): Requirement {
    [Comparator(op, parts, [])]
  }

  lemma PlainMatches(op: Op, parts: seq<nat>, v: Version)
    ensures ReqMatches(Plain(op, parts), v) <==> Matches(Comparator(op, parts, []), v)
  {
    assert Plain(op, parts)[0] == Comparator(op, parts, []);
  }

  lemma PlainSamples(op: Op, parts: seq<nat>)
    ensures Samples(Plain(op, parts)[0]) == Near(parts)
  {
  }

  /** Patched `~x.y.z`, requirement `x.y.z`: `x.(y+1).0` is admitted and affected, and no sample shows it. */
  lemma TildeIsMissed(x: nat, y: nat, z: nat, hit: Option<Version>)
    requires x > 0
    requires IsFirstSample([Plain(Tilde, [x, y, z])], RequirementRange([x, y, z]).0, RequirementRange([x, y, z]).1, hit)
    ensures hit == None
    ensures !IsFirstAffected([Plain(Tilde, [x, y, z])], RequirementRange([x, y, z]).0, RequirementRange([x, y, z]).1, hit)
  {
    hide Samples, ReqMatches;
    var a, low, missed := [Plain(Tilde, [x, y, z])], Version(x, y, z), Version(x, y + 1, 0);
    PlainMatches(Tilde, [x, y, z], missed);
    PlainMatches(Tilde, [x, y, z], low);
    PlainMatches(Tilde, [x, y, z], low.NextPatch());
    PlainSamples(Tilde, [x, y, z]);
    assert Affected(a, missed) && !Affected(a, low) && !Affected(a, low.NextPatch()) by {
      assert a[0] == Plain(Tilde, [x, y, z]);
    }
  }

  /** Patched `<0.y` and `^0.y`, requirement `0`: `0.(y+1).0` is missed. */
  lemma BareZeroIsMissed(y: nat, hit: Option<Version>)
    requires y > 0
    requires IsFirstSample([Plain(Lt, [0, y]), Plain(Caret, [0, y])], RequirementRange([0]).0, RequirementRange([0]).1, hit)
    ensures hit == None
    ensures !IsFirstAffected([Plain(Lt, [0, y]), Plain(Caret, [0, y])], RequirementRange([0]).0, RequirementRange([0]).1, hit)
  {
    hide Samples, ReqMatches;
    var a := [Plain(Lt, [0, y]), Plain(Caret, [0, y])];
    var low, at, missed := Version(0, 0, 0), Version(0, y, 0), Version(0, y + 1, 0);
    PlainMatches(Lt, [0, y], missed);
    PlainMatches(Caret, [0, y], missed);
    PlainMatches(Lt, [0, y], low);
    PlainMatches(Caret, [0, y], at);
    PlainMatches(Caret, [0, y], at.NextPatch());
    PlainSamples(Lt, [0, y]);
    PlainSamples(Caret, [0, y]);
    assert Affected(a, missed) && !Affected(a, low) && !Affected(a, at) && !Affected(a, at.NextPatch()) by {
      assert a[0] == Plain(Lt, [0, y]) && a[1] == Plain(Caret, [0, y]);
    }
  }

  // ---- an advisory from introduction to fix ----

  /** Patched from `c` on, unaffected before `a`. */
  function Window(a: Version, c: Version): Advisory {
    [Plain(Ge, [c.major, c.minor, c.patch]), Plain(Lt, [a.major, a.minor, a.patch])]
  }

  lemma WindowMeaning(a: Version, c: Version, v: Version)
    ensures Affected(Window(a, c), v) <==>
              Precedes(v, c.major, c.minor, c.patch) && !Precedes(v, a.major, a.minor, a.patch)
  {
    hide ReqMatches, Precedes, Matches;
    var w := Window(a, c);
    PlainMatches(Ge, [c.major, c.minor, c.patch], v);
    PlainMatches(Lt, [a.major, a.minor, a.patch], v);
    ComparatorMeaning(c.major, c.minor, c.patch, [], v);
    ComparatorMeaning(a.major, a.minor, a.patch, [], v);
    assert w[0] == Plain(Ge, [c.major, c.minor, c.patch]) && w[1] == Plain(Lt, [a.major, a.minor, a.patch]);
  }

  lemma WindowIsOrderOnly(a: Version, c: Version)
    ensures OrderOnly(Window(a, c))
  {
  }

  /**
   The scan of an advisory with a fix at `c` and a start at `a`: the floor of the
   range when it lies between the two, the start when that lies in the range,
   and nothing otherwise. In particular nothing when `a` is `c`.
   */
  lemma WindowIsFound(a: Version, c: Version, low: Version, high: Version, hit: Option<Version>)
    requires IsFirstSample(Window(a, c), low, high, hit)
    ensures hit ==
            if low.Lt(high) && low.Lt(c) && a.Le(low) then Some(low)
            else if low.Lt(a) && a.Lt(c) && a.Lt(high) then Some(a)
            else None
    ensures a == c ==> hit == None
  {
    hide IsFirstSample, Affected, Window;
    WindowIsOrderOnly(a, c);
    OrderOnlyIsExact(Window(a, c), low, high, hit);
    WindowMeaning(a, c, low);
    WindowMeaning(a, c, a);
    if hit.Some? {
      WindowMeaning(a, c, hit.value);
    }
  }

  /** An advisory that only says `>=x.y.z` is patched marks every lower floor. */
  lemma PatchedFromIsFound(x: nat, y: nat, z: nat, low: Version, high: Version, hit: Option<Version>)
    requires low.Lt(high) && IsFirstSample([Plain(Ge, [x, y, z])], low, high, hit)
    ensures hit == if Precedes(low, x, y, z) then Some(low) else None
  {
    hide ReqMatches, Samples;
    var a := [Plain(Ge, [x, y, z])];
    assert a[0] == Plain(Ge, [x, y, z]);
    forall v ensures Affected(a, v) <==> Precedes(v, x, y, z) {
      PlainMatches(Ge, [x, y, z], v);
      ComparatorMeaning(x, y, z, [], v);
    }
  }

  function Bound(op: Op, v: Version): Comparator {
    Comparator(op, [v.major, v.minor, v.patch], [])
  }

  /** A comma joins: `>=a, <b` holds from a on and before b. */
  lemma CommaMeaning(a: Version, b: Version, v: Version)
    ensures ReqMatches([Bound(Ge, a), Bound(Lt, b)], v) <==>
              !Precedes(v, a.major, a.minor, a.patch) && Precedes(v, b.major, b.minor, b.patch)
  {
    hide Precedes, Matches;
    var r := [Bound(Ge, a), Bound(Lt, b)];
    ComparatorMeaning(a.major, a.minor, a.patch, [], v);
    ComparatorMeaning(b.major, b.minor, b.patch, [], v);
    assert r[0] == Bound(Ge, a) && r[1] == Bound(Lt, b);
  }

  /** A fix at c and a backported one from a on and before b: affected before a, and from b on and before c. */
  lemma BackportMeaning(a: Version, b: Version, c: Version, v: Version)
    ensures Affected([[Bound(Ge, a), Bound(Lt, b)], [Bound(Ge, c)]], v) <==>
              && Precedes(v, c.major, c.minor, c.patch)
              && (Precedes(v, a.major, a.minor, a.patch) || !Precedes(v, b.major, b.minor, b.patch))
  {
    hide Precedes, Matches, ReqMatches;
    var advisory := [[Bound(Ge, a), Bound(Lt, b)], [Bound(Ge, c)]];
    CommaMeaning(a, b, v);
    PlainMatches(Ge, [c.major, c.minor, c.patch], v);
    ComparatorMeaning(c.major, c.minor, c.patch, [], v);
    assert advisory[1] == Plain(Ge, [c.major, c.minor, c.patch]);
    assert advisory[0] == [Bound(Ge, a), Bound(Lt, b)];
  }

  /** Every version a requirement's text names is looked at, and so is the patch after it, readable or not. */
  lemma NamedIsSampled(a: Advisory, low: Version, i: nat, j: nat, parts: seq<nat>)
    requires i < |a| && j < |a[i]| && (parts in a[i][j].more || (a[i][j].Comparator? && parts == a[i][j].parts))
    ensures IsSample(a, low, Parse(parts)) && IsSample(a, low, Parse(parts).NextPatch())
  {
    assert Parse(parts) in Near(parts) && Parse(parts).NextPatch() in Near(parts);
    assert Parse(parts) in Samples(a[i][j]) && Parse(parts).NextPatch() in Samples(a[i][j]);
  }
}

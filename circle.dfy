/**
 * The discrete phase circle shared by the clock, BSRG and Metropolis-Hastings
 * modules: m states, state s standing for the angle 2*pi*s/m. Angles are kept
 * in turns (fractions of a full circle) so that they are exact.
 */
module Circle {

  // ---------------------------------------------------------------------------
  // Python's integer // and % (floor semantics)

  function FloorDiv(a: int, b: int): (q: int)
    requires b != 0
    ensures b > 0 ==> b * q <= a < b * q + b
    ensures b < 0 ==> b * q >= a > b * q + b
  {
    if b > 0 then a / b else (-a) / (-b)
  }

  function FloorMod(a: int, b: int): (r: int)
    requires b != 0
    ensures a == b * FloorDiv(a, b) + r
    ensures b > 0 ==> 0 <= r < b
    ensures b < 0 ==> b < r <= 0
  {
    a - b * FloorDiv(a, b)
  }

  /** x % m for x at most one lap outside [0, m). */
  lemma FloorModNearRange(x: int, m: int)
    requires m > 0 && -m <= x < 2 * m
    ensures FloorMod(x, m) == if x < 0 then x + m else if x < m then x else x - m
  {
    FloorDivUnique(x, m, if x < 0 then -1 else if x < m then 0 else 1);
  }

  /** x // m is the only q with m*q <= x < m*q + m. */
  lemma FloorDivUnique(x: int, m: int, q: int)
    requires m > 0 && m * q <= x < m * q + m
    ensures FloorDiv(x, m) == q
  {
    var p := FloorDiv(x, m);
    if p > q {
      MulStep(m, q, p);
    }
    if p < q {
      MulStep(m, p, q);
    }
  }

  lemma MulStep(m: int, a: int, b: int)
    requires m > 0 && a < b
    ensures m * a + m <= m * b
  {
    var k := b - a - 1;
    assert m * b == m * a + m * k + m;
    assert m * k >= 0;
  }

  function Abs(x: int): (r: nat)
    ensures r == x || r == -x
  {
    if x < 0 then -x else x
  }

  function AbsReal(x: real): (r: real)
    ensures r >= 0.0 && (r == x || r == -x)
  {
    if x < 0.0 then -x else x
  }

  // ---------------------------------------------------------------------------
  // min(...) and list.index(max(...)): the first position of an extremum

  function FirstArgMin(xs: seq<real>): (i: nat)
    requires |xs| > 0
    ensures i < |xs|
    ensures forall j :: 0 <= j < |xs| ==> xs[i] <= xs[j]
    ensures forall j :: 0 <= j < i ==> xs[j] > xs[i]
  {
    if |xs| == 1 then 0
    else
      var k := FirstArgMin(xs[..|xs| - 1]);
      if xs[|xs| - 1] < xs[k] then |xs| - 1 else k
  }

  function FirstArgMax(xs: seq<real>): (i: nat)
    requires |xs| > 0
    ensures i < |xs|
    ensures forall j :: 0 <= j < |xs| ==> xs[j] <= xs[i]
    ensures forall j :: 0 <= j < i ==> xs[j] < xs[i]
  {
    if |xs| == 1 then 0
    else
      var k := FirstArgMax(xs[..|xs| - 1]);
      if xs[|xs| - 1] > xs[k] then |xs| - 1 else k
  }

  // ---------------------------------------------------------------------------
  // get_closest_state_from_rad

  /** The angle of state s on a circle of m states, in turns. */
  function Turn(s: int, m: int): real
    requires m != 0
  {
    s as real / m as real
  }

  /** |angle - angle(s)| for each state s of the radian map, in map order. */
  function Offsets(turn: real, m: nat): (ds: seq<real>)
    requires m > 0
    ensures |ds| == m && forall s :: 0 <= s < m ==> ds[s] == AbsReal(turn - Turn(s, m))
  {
    seq(m, s requires 0 <= s < m => AbsReal(turn - Turn(s, m)))
  }

  /**
   * The state of the radian map nearest to the angle, measured along the real
   * line (not around the circle); ties go to the smaller state.
   */
  function ClosestState(turn: real, m: nat): (s: nat)
    requires m > 0
    ensures s < m
    ensures forall t :: 0 <= t < m ==> AbsReal(turn - Turn(s, m)) <= AbsReal(turn - Turn(t, m))
    ensures forall t :: 0 <= t < s ==> AbsReal(turn - Turn(t, m)) > AbsReal(turn - Turn(s, m))
  {
    var ds := Offsets(turn, m);
    var s := FirstArgMin(ds);
    assert forall t :: 0 <= t < m ==> ds[t] == AbsReal(turn - Turn(t, m));
    s
  }

  /** The angle of a state maps back to that state. */
  lemma ClosestStateOfState(s: nat, m: nat)
    requires s < m
    ensures ClosestState(Turn(s, m), m) == s
  {
    var c := ClosestState(Turn(s, m), m);
    assert AbsReal(Turn(s, m) - Turn(c, m)) <= AbsReal(Turn(s, m) - Turn(s, m));
    TurnInjective(c, s, m);
  }

  lemma TurnInjective(a: int, b: int, m: nat)
    requires m > 0 && Turn(a, m) == Turn(b, m)
    ensures a == b
  {
    assert Turn(a, m) * m as real == a as real;
    assert Turn(b, m) * m as real == b as real;
  }

  lemma TurnMonotone(a: int, b: int, m: nat)
    requires m > 0 && a < b
    ensures Turn(a, m) < Turn(b, m)
  {
    assert Turn(b, m) - Turn(a, m) == (b - a) as real / m as real;
  }

  /**
   * An angle in the last slice of the circle, even one circularly closer to
   * state 0, is mapped to state m-1: the map is searched without wrap-around.
   */
  lemma {:induction false} ClosestStateDoesNotWrap(turn: real, m: nat)
    requires m > 0 && Turn(m - 1, m) <= turn
    ensures ClosestState(turn, m) == m - 1
  {
    var c := ClosestState(turn, m);
    if c < m - 1 {
      TurnMonotone(c, m - 1, m);
    }
  }

  // ---------------------------------------------------------------------------
  // The step towards the average state (clock.py and bsrg.py)

  /** The distance between two states of [0, m) around the circle. */
  function CircularDistance(a: int, b: int, m: nat): (d: nat)
    requires 0 <= a < m && 0 <= b < m
    ensures d <= Abs(a - b) && 2 * d <= m
  {
    var d := Abs(a - b);
    if 2 * d <= m then d else m - d
  }

  /**
   * The move rule: cap the step at |avg - state|, then step towards avg
   * directly when |avg - state| < m/2 and the other way round the circle
   * otherwise; the new state is taken modulo m.
   */
  function Approach(state: int, avg: int, step: int, m: int): (r: int)
    requires m != 0
    ensures m > 0 ==> 0 <= r < m
  {
    var dist := Abs(avg - state);
    var s := if step > dist then dist else step;
    if 2 * dist < m then
      (if state < avg then FloorMod(state + s, m) else FloorMod(state - s, m))
    else
      (if state < avg then FloorMod(state - s, m) else FloorMod(state + s, m))
  }

  /**
   * Without wrap-around a positive step brings the state exactly that many
   * states closer to the average, and never past it.
   */
  lemma ApproachWithoutWrap(state: int, avg: int, step: int, m: nat)
    requires 0 <= state < m && 0 <= avg < m && 2 * Abs(avg - state) < m
    requires 0 < step <= Abs(avg - state)
    ensures CircularDistance(Approach(state, avg, step, m), avg, m) == Abs(avg - state) - step
  {
    if state < avg {
      FloorModNearRange(state + step, m);
    } else {
      FloorModNearRange(state - step, m);
    }
  }

  /**
   * Going round the circle, a step no longer than the way round brings the
   * state that many states closer to the average.
   */
  lemma ApproachAroundTheCircle(state: int, avg: int, step: int, m: nat)
    requires 0 <= state < m && 0 <= avg < m && 2 * Abs(avg - state) >= m
    requires 0 < step <= m - Abs(avg - state)
    ensures CircularDistance(Approach(state, avg, step, m), avg, m) == (m - Abs(avg - state)) - step
  {
    if state < avg {
      FloorModNearRange(state - step, m);
    } else {
      FloorModNearRange(state + step, m);
    }
  }

  /**
   * Going round the circle the step is capped by |avg - state|, not by the
   * shorter way round, so a large step can land further from the average:
   * with 10 states, state 0, average 9 and step 9 the new state is 1, two
   * states from the average instead of one.
   */
  lemma ApproachCanOvershoot()
    ensures Approach(0, 9, 9, 10) == 1
    ensures CircularDistance(0, 9, 10) == 1 && CircularDistance(1, 9, 10) == 2
  {
  }

  /** The unit step of bsrg.py goes round the circle: state 1, average 9 of 10 becomes 0. */
  lemma UnitStepRoundTheCircle()
    ensures Approach(1, 9, 1, 10) == 0
  {
  }

  // ---------------------------------------------------------------------------
  // calculate_hamiltonian: sum of cos(angle(my) - angle(neighbour))

  /**
   * The alignment of a state with the neighbour states, in dict order, where
   * cosine(x) stands for cos(2*pi*x).
   */
  function Alignment(my: int, states: seq<int>, m: int, cosine: real -> real): (h: real)
    requires m != 0
  {
    if |states| == 0 then 0.0
    else Alignment(my, states[..|states| - 1], m, cosine) + cosine(Turn(my, m) - Turn(states[|states| - 1], m))
  }

  /** With cos bounded by 1 in size, the alignment is bounded by the number of neighbours. */
  lemma {:induction false} AlignmentBounds(my: int, states: seq<int>, m: int, cosine: real -> real)
    requires m != 0
    requires forall x :: -1.0 <= cosine(x) <= 1.0
    ensures -(|states| as real) <= Alignment(my, states, m, cosine) <= |states| as real
  {
    if |states| > 0 {
      AlignmentBounds(my, states[..|states| - 1], m, cosine);
    }
  }

  /** Every neighbour in the same state gives the largest alignment, one per neighbour. */
  lemma {:induction false} AlignmentOfAgreement(my: int, states: seq<int>, m: int, cosine: real -> real)
    requires m != 0 && cosine(0.0) == 1.0
    requires forall i :: 0 <= i < |states| ==> states[i] == my
    ensures Alignment(my, states, m, cosine) == |states| as real
  {
    if |states| > 0 {
      AlignmentOfAgreement(my, states[..|states| - 1], m, cosine);
    }
  }

  /** Alignment of every state 0..m-1 with the neighbours. */
  function Alignments(states: seq<int>, m: nat, cosine: real -> real): (hs: seq<real>)
    requires m > 0
    ensures |hs| == m && forall s :: 0 <= s < m ==> hs[s] == Alignment(s, states, m, cosine)
  {
    seq(m, s requires 0 <= s < m => Alignment(s, states, m, cosine))
  }

  /**
   * With cos bounded by 1 in size, every candidate's score lies within the
   * number of neighbours, and a candidate all neighbours already hold reaches
   * that bound, so no other candidate scores higher.
   */
  lemma AlignmentsBounded(states: seq<int>, m: nat, cosine: real -> real)
    requires m > 0
    requires cosine(0.0) == 1.0 && forall x :: -1.0 <= cosine(x) <= 1.0
    ensures forall s :: 0 <= s < m ==> -(|states| as real) <= Alignments(states, m, cosine)[s] <= |states| as real
    ensures forall s :: 0 <= s < m && (forall i :: 0 <= i < |states| ==> states[i] == s) ==>
      Alignments(states, m, cosine)[s] == |states| as real
  {
    forall s | 0 <= s < m
      ensures -(|states| as real) <= Alignments(states, m, cosine)[s] <= |states| as real
    {
      AlignmentBounds(s, states, m, cosine);
    }
    forall s | 0 <= s < m && (forall i :: 0 <= i < |states| ==> states[i] == s)
      ensures Alignments(states, m, cosine)[s] == |states| as real
    {
      AlignmentOfAgreement(s, states, m, cosine);
    }
  }
}

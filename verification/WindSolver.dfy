/**
 The turn-into-wind solver and the apparent wind it is meant to produce.
*/
module WindSolver {
  // An angle is a point on the unit circle. Headings are compass directions, so a heading with cosine c and
  // sine s points c to the north and s to the east. `asin x` is the angle with sine x whose cosine is not
  // negative; that cosine, and the square roots the solver takes, are handed in as the `root` that squares to
  // the number under the root sign. Speeds are real numbers.

  datatype Angle = Angle(c: real, s: real) {
    ghost predicate Valid() {
      c * c + s * s == 1.0
    }
  }

  function Plus(a: Angle, b: Angle): Angle {
    Angle(a.c * b.c - a.s * b.s, a.s * b.c + a.c * b.s)
  }

  function Minus(a: Angle, b: Angle): Angle {
    Angle(a.c * b.c + a.s * b.s, a.s * b.c - a.c * b.s)
  }

  datatype Input = Input(
    windFrom: Angle,
    windSpeed: real,
    targetWod: real,
    deckOffset: Angle,
    minSpeed: real,
    maxSpeed: real,
    angledDeckMinWind: real,
    heading: Angle,
    naturalHeadwind: real)

  datatype Regime = Optimal | VmaxLimited | VminLimited | LowWind | WeakWind

  datatype Result = Result(heading: Angle, speed: real, regime: Regime)

  // What callers hand in: angles, a deck angled by less than a right angle to port (or not at all), a
  // positive wind (a calm is a weak wind, for which the course is kept), and speeds that are not negative.
  ghost predicate Sensible(input: Input) {
    && input.windFrom.Valid() && input.deckOffset.Valid() && input.heading.Valid()
    && input.deckOffset.c > 0.0 && input.deckOffset.s >= 0.0
    && input.windSpeed > 0.0
    && 0.0 <= input.minSpeed <= input.maxSpeed
    && input.targetWod >= 0.0
  }

  function Clamp(speed: real, low: real, high: real): real {
    var raised := if speed < low then low else speed;
    if raised > high then high else raised
  }

  function RegimeOf(input: Input): Regime {
    if input.windSpeed >= input.angledDeckMinWind then
      if input.targetWod > input.windSpeed + input.deckOffset.c * input.maxSpeed then VmaxLimited
      else if input.targetWod < input.windSpeed + input.deckOffset.c * input.minSpeed then VminLimited
      else if input.targetWod * input.deckOffset.s > input.windSpeed then LowWind
      else Optimal
    else WeakWind
  }

  // The speed that a limited regime fixes.
  function LimitedSpeed(input: Input): real {
    if RegimeOf(input) == VmaxLimited then input.maxSpeed else input.minSpeed
  }

  function SpeedRatio(v: real, s: real, w: real): real
    requires w > 0.0
  {
    v * s / w
  }

  // v / (W * C), where 1 / C is the sine of the deck offset: the cotangent squared plus one is 1 / sin^2,
  // and for a straight deck C is infinite.
  function LimitedSine(input: Input): real
    requires input.windSpeed > 0.0
  {
    Clamp(SpeedRatio(LimitedSpeed(input), input.deckOffset.s, input.windSpeed), -1.0, 1.0)
  }

  function OptimalSine(input: Input): real
    requires input.windSpeed > 0.0
  {
    input.targetWod * input.deckOffset.s / input.windSpeed
  }

  // The number whose square root the regime takes: the cosine of an arcsine, or the low-wind speed.
  function Radicand(input: Input): real
    requires input.windSpeed > 0.0 || RegimeOf(input) == WeakWind
  {
    match RegimeOf(input)
    case VmaxLimited => 1.0 - LimitedSine(input) * LimitedSine(input)
    case VminLimited => 1.0 - LimitedSine(input) * LimitedSine(input)
    case LowWind => input.targetWod * input.targetWod - input.windSpeed * input.windSpeed
    case Optimal => 1.0 - OptimalSine(input) * OptimalSine(input)
    case WeakWind => 0.0
  }

  ghost predicate IsRoot(root: real, radicand: real) {
    root >= 0.0 && root * root == radicand
  }

  // ---------------------------------------------------------------------------------------------
  // Products of reals
  // ---------------------------------------------------------------------------------------------

  lemma MulKeepsOrder(w: real, a: real, b: real)
    requires w >= 0.0 && a <= b
    ensures w * a <= w * b
  {
    assert w * b - w * a == w * (b - a);
    NotNegative(w, b - a);
  }

  lemma NotNegative(a: real, b: real)
    requires a >= 0.0 && b >= 0.0
    ensures a * b >= 0.0
  {
  }

  lemma MulKeepsStrictOrder(w: real, a: real, b: real)
    requires w > 0.0 && a < b
    ensures w * a < w * b
  {
    assert w * b - w * a == w * (b - a);
  }

  lemma SquareKeepsOrder(a: real, b: real)
    requires 0.0 <= a < b
    ensures a * a < b * b
  {
    calc {
      a * a;
    <= { MulKeepsOrder(a, a, b); }
      a * b;
    ==
      b * a;
    <  { MulKeepsStrictOrder(b, a, b); }
      b * b;
    }
  }

  lemma SameSquare(a: real, b: real)
    requires a >= 0.0 && b >= 0.0
    ensures a * a == b * b <==> a == b
  {
    if a < b {
      SquareKeepsOrder(a, b);
    } else if b < a {
      SquareKeepsOrder(b, a);
    }
  }

  lemma SquareAtMostOne(x: real)
    ensures x * x <= 1.0 <==> -1.0 <= x <= 1.0
  {
    var y := if x < 0.0 then -x else x;
    assert y * y == x * x;
    if y > 1.0 {
      SquareKeepsOrder(1.0, y);
    } else {
      MulKeepsOrder(y, y, 1.0);
    }
  }

  lemma SineAtMostOne(a: Angle)
    requires a.Valid()
    ensures -1.0 <= a.s <= 1.0 && -1.0 <= a.c <= 1.0
  {
    Square(a.s);
    Square(a.c);
    SquareAtMostOne(a.s);
    SquareAtMostOne(a.c);
  }

  lemma Square(x: real)
    ensures x * x >= 0.0
  {
  }

  lemma AtMost(w: real, x: real, y: real)
    requires w > 0.0 && w * x <= w * y
    ensures x <= y
  {
    if x > y {
      MulKeepsStrictOrder(w, y, x);
    }
  }

  // What each regime says about the target.
  lemma RegimeFacts(input: Input)
    ensures match RegimeOf(input)
            case VmaxLimited => input.targetWod > input.windSpeed + input.deckOffset.c * input.maxSpeed
            case VminLimited => input.targetWod < input.windSpeed + input.deckOffset.c * input.minSpeed
            case LowWind => input.targetWod * input.deckOffset.s > input.windSpeed
            case Optimal =>
              && input.targetWod >= input.windSpeed + input.deckOffset.c * input.minSpeed
              && input.targetWod * input.deckOffset.s <= input.windSpeed
            case WeakWind => input.windSpeed < input.angledDeckMinWind
  {
  }

  /** The root always exists: the number under it is never negative. */
  lemma RadicandNotNegative(input: Input)
    requires Sensible(input)
    ensures Radicand(input) >= 0.0
  {
    RegimeFacts(input);
    hide LimitedSine, RegimeOf;
    match RegimeOf(input)
    case LowWind =>
      SineAtMostOne(input.deckOffset);
      LowWindRoot(input.windSpeed, input.targetWod, input.deckOffset.s);
    case Optimal =>
      OptimalRoot(input.windSpeed, input.targetWod, input.deckOffset.s, OptimalSine(input));
    case WeakWind =>
    case _ =>
      LimitedSineInUnit(input);
      SquareAtMostOne(LimitedSine(input));
  }

  lemma LimitedSineInUnit(input: Input)
    requires input.windSpeed > 0.0
    ensures -1.0 <= LimitedSine(input) <= 1.0
  {
  }

  lemma LowWindRoot(w: real, t: real, s: real)
    requires 0.0 < w < t * s && t >= 0.0 && s <= 1.0
    ensures t * t - w * w >= 0.0
  {
    calc {
      w;
    <
      t * s;
    <= { MulKeepsOrder(t, s, 1.0); }
      t;
    }
    SquareKeepsOrder(w, t);
  }

  lemma OptimalRoot(w: real, t: real, s: real, x: real)
    requires w > 0.0 && t >= 0.0 && s >= 0.0
    requires x == t * s / w && t * s <= w
    ensures 1.0 - x * x >= 0.0
  {
    NotNegative(t, s);
    assert w * x == t * s;
    AtMost(w, x, 1.0);
    AtMost(w, 0.0, x);
    SquareAtMostOne(x);
  }

  // The angle the ship turns from the wind's direction.
  function Theta(input: Input, root: real): Angle
    requires input.windSpeed > 0.0 || RegimeOf(input) == WeakWind
  {
    match RegimeOf(input)
    case LowWind => Angle(0.0, 1.0)
    case Optimal => Angle(root, OptimalSine(input))
    case WeakWind => Angle(1.0, 0.0)
    case _ => Plus(Angle(root, LimitedSine(input)), input.deckOffset)
  }

  // The speed before the final clamp.
  function WantedSpeed(input: Input, root: real): real {
    match RegimeOf(input)
    case LowWind => root
    case Optimal => input.targetWod * input.deckOffset.c - input.windSpeed * root
    case WeakWind => input.targetWod - input.naturalHeadwind
    case _ => LimitedSpeed(input)
  }

  /** The solver. Its heading is the wind's plus theta: the half turns it adds cancel out. */
  function Solve(input: Input, root: real): Result
    requires input.windSpeed > 0.0 || RegimeOf(input) == WeakWind
    requires IsRoot(root, Radicand(input))
  {
    Result(
      if RegimeOf(input) == WeakWind then input.heading else Plus(input.windFrom, Theta(input, root)),
      Clamp(WantedSpeed(input, root), input.minSpeed, input.maxSpeed),
      RegimeOf(input))
  }

  /** The regimes tell the inputs apart: which of them applies, exactly, and the speed that a limited one sets. */
  lemma RegimeIs(input: Input, root: real)
    requires Sensible(input) && IsRoot(root, Radicand(input))
    ensures var slow := input.windSpeed + input.deckOffset.c * input.minSpeed;
            var fast := input.windSpeed + input.deckOffset.c * input.maxSpeed;
            var abeam := input.targetWod * input.deckOffset.s > input.windSpeed;
            var solved := Solve(input, root);
            && (solved.regime == WeakWind <==> input.windSpeed < input.angledDeckMinWind)
            && (input.windSpeed >= input.angledDeckMinWind ==>
                 && (solved.regime == VmaxLimited <==> fast < input.targetWod)
                 && (solved.regime == VminLimited <==> input.targetWod < slow)
                 && (solved.regime == LowWind <==> slow <= input.targetWod <= fast && abeam)
                 && (solved.regime == Optimal <==> slow <= input.targetWod <= fast && !abeam))
            && input.minSpeed <= solved.speed <= input.maxSpeed
            && (solved.regime == VmaxLimited ==> solved.speed == input.maxSpeed)
            && (solved.regime == VminLimited ==> solved.speed == input.minSpeed)
  {
    MulKeepsOrder(input.deckOffset.c, input.minSpeed, input.maxSpeed);
    RegimeTests(input, input.deckOffset.c * input.minSpeed, input.deckOffset.c * input.maxSpeed,
                input.targetWod * input.deckOffset.s);
    SolvedSpeed(input, root);
    hide Radicand, Theta, Plus, WantedSpeed, RegimeOf, Clamp;
    assert Solve(input, root).regime == RegimeOf(input);
  }

  lemma RegimeTests(input: Input, slowest: real, fastest: real, abeam: real)
    requires slowest == input.deckOffset.c * input.minSpeed && fastest == input.deckOffset.c * input.maxSpeed
    requires slowest <= fastest && abeam == input.targetWod * input.deckOffset.s
    ensures RegimeOf(input) == WeakWind <==> input.windSpeed < input.angledDeckMinWind
    ensures input.windSpeed >= input.angledDeckMinWind ==>
              var slow, fast := input.windSpeed + slowest, input.windSpeed + fastest;
              && (RegimeOf(input) == VmaxLimited <==> fast < input.targetWod)
              && (RegimeOf(input) == VminLimited <==> input.targetWod < slow)
              && (RegimeOf(input) == LowWind <==> slow <= input.targetWod <= fast && abeam > input.windSpeed)
              && (RegimeOf(input) == Optimal <==> slow <= input.targetWod <= fast && abeam <= input.windSpeed)
  {
  }

  lemma SolvedSpeed(input: Input, root: real)
    requires Sensible(input) && IsRoot(root, Radicand(input))
    ensures var solved := Solve(input, root);
            && input.minSpeed <= solved.speed <= input.maxSpeed
            && (RegimeOf(input) == VmaxLimited ==> solved.speed == input.maxSpeed)
            && (RegimeOf(input) == VminLimited ==> solved.speed == input.minSpeed)
  {
    hide Radicand, Theta, Plus, RegimeOf;
  }

  // ---------------------------------------------------------------------------------------------
  // The apparent wind
  // ---------------------------------------------------------------------------------------------

  // East and north components of the apparent wind of a ship's heading and speed.
  datatype Vector = Vector(east: real, north: real)

  function ApparentWind(windFrom: Angle, windSpeed: real, heading: Angle, speed: real): Vector {
    Vector(windSpeed * windFrom.s + speed * heading.s, windSpeed * windFrom.c + speed * heading.c)
  }

  // Components along a direction, and to its right.
  function Along(v: Vector, d: Angle): real {
    v.east * d.s + v.north * d.c
  }

  function Across(v: Vector, d: Angle): real {
    v.east * d.c - v.north * d.s
  }

  function SquaredLength(v: Vector): real {
    v.east * v.east + v.north * v.north
  }

  // What the deck feels: the angled deck points to port of the heading by the offset.
  function DownTheDeck(input: Input, heading: Angle, speed: real): real {
    Along(ApparentWind(input.windFrom, input.windSpeed, heading, speed), Minus(heading, input.deckOffset))
  }

  function CrossDeck(input: Input, heading: Angle, speed: real): real {
    Across(ApparentWind(input.windFrom, input.windSpeed, heading, speed), Minus(heading, input.deckOffset))
  }

  // ---------------------------------------------------------------------------------------------
  // Angles
  // ---------------------------------------------------------------------------------------------

  lemma PlusValid(a: Angle, b: Angle)
    requires a.Valid() && b.Valid()
    ensures Plus(a, b).Valid()
  {
    var p := Plus(a, b);
    calc {
      p.c * p.c + p.s * p.s;
      (a.c * a.c + a.s * a.s) * (b.c * b.c) + (a.c * a.c + a.s * a.s) * (b.s * b.s);
      b.c * b.c + b.s * b.s;
      1.0;
    }
  }

  lemma MinusValid(a: Angle, b: Angle)
    requires a.Valid() && b.Valid()
    ensures Minus(a, b).Valid()
  {
    assert Minus(a, b) == Plus(a, Angle(b.c, -b.s));
    assert (-b.s) * (-b.s) == b.s * b.s;
    PlusValid(a, Angle(b.c, -b.s));
  }

  // A unit vector at angle a, seen from direction d.
  lemma Seen(a: Angle, d: Angle, w: real)
    ensures Along(Vector(w * a.s, w * a.c), d) == w * Minus(a, d).c
    ensures Across(Vector(w * a.s, w * a.c), d) == w * Minus(a, d).s
  {
  }

  lemma SeenTogether(u: Vector, v: Vector, d: Angle)
    ensures Along(Vector(u.east + v.east, u.north + v.north), d) == Along(u, d) + Along(v, d)
    ensures Across(Vector(u.east + v.east, u.north + v.north), d) == Across(u, d) + Across(v, d)
  {
  }

  lemma ApparentSeen(windFrom: Angle, windSpeed: real, heading: Angle, speed: real, d: Angle)
    ensures var a := ApparentWind(windFrom, windSpeed, heading, speed);
            && Along(a, d) == windSpeed * Minus(windFrom, d).c + speed * Minus(heading, d).c
            && Across(a, d) == windSpeed * Minus(windFrom, d).s + speed * Minus(heading, d).s
  {
    hide Along, Across, Minus;
    var wind := Vector(windSpeed * windFrom.s, windSpeed * windFrom.c);
    var ship := Vector(speed * heading.s, speed * heading.c);
    Seen(windFrom, d, windSpeed);
    Seen(heading, d, speed);
    SeenTogether(wind, ship, d);
    assert ApparentWind(windFrom, windSpeed, heading, speed) ==
           Vector(wind.east + ship.east, wind.north + ship.north);
  }

  // a - (a - b) is b.
  lemma BackAgain(a: Angle, b: Angle)
    requires a.Valid()
    ensures Minus(a, Minus(a, b)) == b
  {
    var m := Minus(a, Minus(a, b));
    calc {
      m.c;
      (a.c * a.c + a.s * a.s) * b.c;
      b.c;
    }
    calc {
      m.s;
      (a.c * a.c + a.s * a.s) * b.s;
      b.s;
    }
  }

  // The wind and the ship's own motion as the deck feels them, for any heading and speed.
  lemma DeckWind(input: Input, heading: Angle, speed: real)
    requires heading.Valid()
    ensures var wind := Minus(input.windFrom, Minus(heading, input.deckOffset));
            && DownTheDeck(input, heading, speed) == input.windSpeed * wind.c + speed * input.deckOffset.c
            && CrossDeck(input, heading, speed) == input.windSpeed * wind.s + speed * input.deckOffset.s
  {
    hide Along, Across, Minus;
    BackAgain(heading, input.deckOffset);
    ApparentSeen(input.windFrom, input.windSpeed, heading, speed, Minus(heading, input.deckOffset));
  }

  // The sum of a and c, less e, against a less the difference of e and c, with all parts named.
  lemma Regroup(a: Angle, c: Angle, e: Angle, sum: Angle, diff: Angle)
    requires sum.c == a.c * c.c - a.s * c.s && sum.s == a.s * c.c + a.c * c.s
    requires diff.c == e.c * c.c + e.s * c.s && diff.s == e.s * c.c - e.c * c.s
    ensures sum.c * e.c + sum.s * e.s == a.c * diff.c + a.s * diff.s
    ensures sum.s * e.c - sum.c * e.s == a.s * diff.c - a.c * diff.s
  {
  }

  // Turned from the wind by theta, the deck sees the wind from offset - theta.
  lemma WindOnDeck(f: Angle, theta: Angle, offset: Angle)
    requires f.Valid()
    ensures Minus(f, Minus(Plus(f, theta), offset)) == Minus(offset, theta)
  {
    Regroup(f, theta, offset, Plus(f, theta), Minus(offset, theta));
    assert Minus(Plus(f, theta), offset) == Minus(f, Minus(offset, theta));
    hide Minus, Plus;
    BackAgain(f, Minus(offset, theta));
  }

  lemma SolvedDeckWind(input: Input, theta: Angle, speed: real)
    requires input.windFrom.Valid() && theta.Valid()
    ensures var heading, wind := Plus(input.windFrom, theta), Minus(input.deckOffset, theta);
            && heading.Valid()
            && DownTheDeck(input, heading, speed) == input.windSpeed * wind.c + speed * input.deckOffset.c
            && CrossDeck(input, heading, speed) == input.windSpeed * wind.s + speed * input.deckOffset.s
  {
    hide Plus, Minus, DownTheDeck, CrossDeck;
    PlusValid(input.windFrom, theta);
    DeckWind(input, Plus(input.windFrom, theta), speed);
    WindOnDeck(input.windFrom, theta, input.deckOffset);
  }

  // ---------------------------------------------------------------------------------------------
  // Optimal
  // ---------------------------------------------------------------------------------------------

  predicate Unclamped(input: Input, root: real) {
    input.minSpeed <= WantedSpeed(input, root) <= input.maxSpeed
  }

  /** In the optimal regime the apparent wind is exactly the target speed, straight down the angled deck,
      if and only if the speed it asks for is within the ship's limits. */
  lemma OptimalIsExact(input: Input, root: real)
    requires Sensible(input) && IsRoot(root, Radicand(input)) && RegimeOf(input) == Optimal
    ensures var r := Solve(input, root);
            DownTheDeck(input, r.heading, r.speed) == input.targetWod && CrossDeck(input, r.heading, r.speed) == 0.0
            <==> Unclamped(input, root)
  {
    hide DownTheDeck, CrossDeck, Plus, Minus, Solve, Radicand, Unclamped, WantedSpeed;
    var r := Solve(input, root);
    var theta, d := SolvedOptimal(input, root);
    OptimalDeckWind(input, theta, d, r.speed);
    NotMoved(d, input.deckOffset.c, input.deckOffset.s);
  }

  lemma OptimalDeckWind(input: Input, theta: Angle, d: real, speed: real)
    requires input.windFrom.Valid() && input.deckOffset.Valid() && theta.Valid()
    requires input.windSpeed * theta.s == input.targetWod * input.deckOffset.s
    requires speed == input.targetWod * input.deckOffset.c - input.windSpeed * theta.c + d
    ensures DownTheDeck(input, Plus(input.windFrom, theta), speed) == input.targetWod + d * input.deckOffset.c
    ensures CrossDeck(input, Plus(input.windFrom, theta), speed) == d * input.deckOffset.s
  {
    hide DownTheDeck, CrossDeck, Plus, Minus;
    SolvedDeckWind(input, theta, speed);
    OptimalAlgebra(input.windSpeed, input.targetWod, input.deckOffset, theta, d, speed);
  }

  // With x the sine and root the cosine of the angle turned: the wind along the ship's heading, squared.
  lemma AlongSquared(w: real, t: real, offset: Angle, x: real, root: real)
    requires offset.Valid() && w * x == t * offset.s && root * root == 1.0 - x * x
    ensures (w * root) * (w * root) == w * w - t * t + (t * offset.c) * (t * offset.c)
  {
    calc {
      (w * root) * (w * root);
      (w * w) * (root * root);
      w * w - (w * x) * (w * x);
      w * w - (t * t) * (offset.s * offset.s);
      { assert offset.s * offset.s == 1.0 - offset.c * offset.c; }
      w * w - (t * t) * (1.0 - offset.c * offset.c);
      w * w - t * t + (t * offset.c) * (t * offset.c);
    }
  }

  lemma SquaresCompare(a: real, b: real)
    requires a >= 0.0 && b >= 0.0
    ensures a <= b <==> a * a <= b * b
  {
    if a < b {
      SquareKeepsOrder(a, b);
    } else if b < a {
      SquareKeepsOrder(b, a);
    }
  }

  lemma SquareOfDifference(a: real, b: real)
    ensures (a - b) * (a - b) == a * a - 2.0 * (a * b) + b * b
  {
  }

  // The square of the wind speed at which a ship at speed v has the target straight down the deck.
  function NeededSquared(t: real, c: real, v: real): real {
    t * t - 2.0 * ((t * c) * v) + v * v
  }

  // The wind along the ship's heading, by its square.
  predicate IsAlong(w: real, t: real, c: real, q: real) {
    q >= 0.0 && q * q == w * w - t * t + (t * c) * (t * c)
  }

  lemma UpperLimit(w: real, t: real, c: real, high: real, q: real)
    requires IsAlong(w, t, c, q)
    ensures t * c - q <= high <==> (t * c > high ==> NeededSquared(t, c, high) <= w * w)
  {
    if t * c > high {
      SquaresCompare(t * c - high, q);
      SquareOfDifference(t * c, high);
    }
  }

  lemma LowerLimit(w: real, t: real, c: real, low: real, q: real)
    requires IsAlong(w, t, c, q)
    ensures low <= t * c - q <==> t * c >= low && NeededSquared(t, c, low) >= w * w
  {
    if t * c >= low {
      SquaresCompare(q, t * c - low);
      SquareOfDifference(t * c, low);
    }
  }

  // A target that is not too small for the slowest speed leaves room above it.
  lemma SlowestFits(w: real, t: real, offset: Angle, low: real)
    requires offset.Valid() && offset.c > 0.0 && offset.s >= 0.0 && w > 0.0 && low >= 0.0
    requires t >= w + offset.c * low && t * offset.s <= w
    ensures t * offset.c >= low
    ensures NeededSquared(t, offset.c, low) >= w * w
  {
    hide Angle.Valid, NeededSquared;
    var step := offset.c * low;
    NotNegative(offset.c, low);
    if t * offset.c < low {
      TooSlow(t, offset, low);
    }
    SquareGrows(w, t - step);
    SquaredRoom(t, offset, low);
  }

  lemma SquareGrows(a: real, b: real)
    requires 0.0 <= a <= b
    ensures a * a <= b * b
  {
    SquaresCompare(a, b);
  }

  lemma SquaredRoom(t: real, offset: Angle, low: real)
    requires offset.Valid()
    ensures (t - offset.c * low) * (t - offset.c * low) <= NeededSquared(t, offset.c, low)
  {
    SquareOfDifference(t, offset.c * low);
    assert t * (offset.c * low) == (t * offset.c) * low;
    SinePart(offset, low);
    Square(offset.s * low);
  }

  lemma SinePart(offset: Angle, low: real)
    requires offset.Valid()
    ensures low * low - (offset.c * low) * (offset.c * low) == (offset.s * low) * (offset.s * low)
  {
    calc {
      low * low - (offset.c * low) * (offset.c * low);
      (low * low) * (1.0 - offset.c * offset.c);
      (low * low) * (offset.s * offset.s);
    }
  }

  lemma TooSlow(t: real, offset: Angle, low: real)
    requires offset.Valid() && offset.c > 0.0 && offset.s >= 0.0 && t > 0.0
    requires t * offset.c < low
    ensures t - offset.c * low < t * offset.s
  {
    calc {
      t - offset.c * low;
    <  { MulKeepsStrictOrder(offset.c, t * offset.c, low); }
      t - offset.c * (t * offset.c);
    ==
      t * (1.0 - offset.c * offset.c);
    ==
      t * (offset.s * offset.s);
    <= { SquaredSine(offset); MulKeepsOrder(t, offset.s * offset.s, offset.s); }
      t * offset.s;
    }
  }

  lemma SquaredSine(offset: Angle)
    requires offset.Valid() && offset.s >= 0.0
    ensures offset.s * offset.s <= offset.s
  {
    SineAtMostOne(offset);
    MulKeepsOrder(offset.s, offset.s, 1.0);
  }

  /** The condition in terms of what the caller hands in: the slowest speed never acts in the optimal regime, and
      the top speed does exactly when t * c exceeds it and the wind is less than the target needs at that speed. */
  lemma OptimalUnclamped(input: Input, root: real)
    requires Sensible(input) && IsRoot(root, Radicand(input)) && RegimeOf(input) == Optimal
    ensures WantedSpeed(input, root) >= input.minSpeed
    ensures Unclamped(input, root) <==>
            var w, t, c, high := input.windSpeed, input.targetWod, input.deckOffset.c, input.maxSpeed;
            t * c > high ==> NeededSquared(t, c, high) <= w * w
  {
    hide Radicand, OptimalSine, RegimeOf, WantedSpeed, IsRoot, Angle.Valid, NeededSquared, IsAlong;
    RegimeFacts(input);
    var q := OptimalAlong(input, root);
    OptimalLimits(input.windSpeed, input.targetWod, input.deckOffset, q, input.minSpeed, input.maxSpeed);
  }

  lemma OptimalLimits(w: real, t: real, offset: Angle, q: real, low: real, high: real)
    requires offset.Valid() && offset.c > 0.0 && offset.s >= 0.0 && w > 0.0 && low >= 0.0
    requires t >= w + offset.c * low && t * offset.s <= w
    requires IsAlong(w, t, offset.c, q)
    ensures low <= t * offset.c - q
    ensures t * offset.c - q <= high <==> (t * offset.c > high ==> NeededSquared(t, offset.c, high) <= w * w)
  {
    hide Angle.Valid, NeededSquared, IsAlong;
    SlowestFits(w, t, offset, low);
    LowerLimit(w, t, offset.c, low, q);
    UpperLimit(w, t, offset.c, high, q);
  }

  // The wind along the ship's heading.
  lemma OptimalAlong(input: Input, root: real) returns (q: real)
    requires Sensible(input) && IsRoot(root, Radicand(input)) && RegimeOf(input) == Optimal
    ensures var w, t, c := input.windSpeed, input.targetWod, input.deckOffset.c;
            IsAlong(w, t, c, q) && WantedSpeed(input, root) == t * c - q
  {
    hide RegimeOf, OptimalSine, LimitedSine, Angle.Valid;
    q := input.windSpeed * root;
    NotNegative(input.windSpeed, root);
    OptimalSineIs(input);
    AlongSquared(input.windSpeed, input.targetWod, input.deckOffset, OptimalSine(input), root);
  }

  lemma OptimalSineIs(input: Input)
    requires input.windSpeed > 0.0
    ensures input.windSpeed * OptimalSine(input) == input.targetWod * input.deckOffset.s
  {
    TimesQuotient(input.windSpeed, input.targetWod * input.deckOffset.s, OptimalSine(input));
  }

  lemma TimesQuotient(w: real, pull: real, x: real)
    requires w > 0.0 && x == pull / w
    ensures w * x == pull
  {
  }

  // The angle turned, and how far the clamp moves the speed.
  lemma SolvedOptimal(input: Input, root: real) returns (theta: Angle, d: real)
    requires Sensible(input) && IsRoot(root, Radicand(input)) && RegimeOf(input) == Optimal
    ensures theta.Valid() && input.windSpeed * theta.s == input.targetWod * input.deckOffset.s
    ensures var r := Solve(input, root);
            && r.heading == Plus(input.windFrom, theta)
            && r.speed == input.targetWod * input.deckOffset.c - input.windSpeed * theta.c + d
    ensures d == 0.0 <==> Unclamped(input, root)
  {
    hide Plus, RegimeOf, LimitedSine, LimitedSpeed;
    theta := Theta(input, root);
    d := Solve(input, root).speed - WantedSpeed(input, root);
  }

  // With the speed d off the one asked for.
  lemma OptimalAlgebra(w: real, t: real, offset: Angle, theta: Angle, d: real, speed: real)
    requires offset.Valid() && w * theta.s == t * offset.s
    requires speed == t * offset.c - w * theta.c + d
    ensures && w * Minus(offset, theta).c + speed * offset.c == t + d * offset.c
            && w * Minus(offset, theta).s + speed * offset.s == d * offset.s
  {
    var along := w * Minus(offset, theta).c + speed * offset.c;
    assert along == offset.s * (w * theta.s) + t * (offset.c * offset.c) + d * offset.c;
    assert along == t * (offset.s * offset.s + offset.c * offset.c) + d * offset.c;
    var across := w * Minus(offset, theta).s + speed * offset.s;
    assert across == t * offset.c * offset.s - offset.c * (w * theta.s) + d * offset.s;
  }

  lemma NotMoved(d: real, c: real, s: real)
    requires c > 0.0
    ensures d * c == 0.0 && d * s == 0.0 <==> d == 0.0
  {
    if d > 0.0 {
      MulKeepsStrictOrder(c, 0.0, d);
    } else if d < 0.0 {
      MulKeepsStrictOrder(c, d, 0.0);
    }
  }

  // ---------------------------------------------------------------------------------------------
  // Low wind
  // ---------------------------------------------------------------------------------------------

  lemma LengthOnDeck(v: Vector, d: Angle)
    requires d.Valid()
    ensures SquaredLength(v) == Along(v, d) * Along(v, d) + Across(v, d) * Across(v, d)
  {
    calc {
      Along(v, d) * Along(v, d) + Across(v, d) * Across(v, d);
      (v.east * v.east) * (d.s * d.s + d.c * d.c) + (v.north * v.north) * (d.s * d.s + d.c * d.c);
      SquaredLength(v);
    }
  }

  /** In the low-wind regime the ship takes the wind abeam, and the apparent wind has exactly the target
      speed if and only if the speed it asks for is within the ship's limits. */
  lemma LowWindIsExact(input: Input, root: real)
    requires Sensible(input) && IsRoot(root, Radicand(input)) && RegimeOf(input) == LowWind
    ensures var r := Solve(input, root);
            && r.heading == Plus(input.windFrom, Angle(0.0, 1.0))
            && (Unclamped(input, root) <==>
                SquaredLength(ApparentWind(input.windFrom, input.windSpeed, r.heading, r.speed)) ==
                input.targetWod * input.targetWod)
  {
    hide Along, Across, Plus, Minus, SquaredLength, ApparentWind, Solve, Radicand, RegimeOf, Unclamped;
    var r := Solve(input, root);
    var f, w := input.windFrom, input.windSpeed;
    SolvedLowWind(input, root);
    AbeamLength(f, w, r.heading, r.speed);
    SameSquare(r.speed, root);
  }

  lemma AbeamLength(f: Angle, w: real, heading: Angle, v: real)
    requires f.Valid() && heading == Plus(f, Angle(0.0, 1.0))
    ensures SquaredLength(ApparentWind(f, w, heading, v)) == w * w + v * v
  {
    hide Along, Across, Plus, Minus, SquaredLength, ApparentWind;
    var a := ApparentWind(f, w, heading, v);
    ApparentSeen(f, w, heading, v, f);
    LengthOnDeck(a, f);
    NoTurn(f);
    TurnBack(f, Angle(0.0, 1.0));
    assert Along(a, f) == w && Across(a, f) == v;
  }

  lemma SolvedLowWind(input: Input, root: real)
    requires Sensible(input) && IsRoot(root, Radicand(input)) && RegimeOf(input) == LowWind
    ensures var r := Solve(input, root);
            && r.heading == Plus(input.windFrom, Angle(0.0, 1.0))
            && r.speed >= 0.0 && (r.speed == root <==> Unclamped(input, root))
            && root * root == input.targetWod * input.targetWod - input.windSpeed * input.windSpeed
  {
    hide Plus, RegimeOf, LimitedSine, OptimalSine, LimitedSpeed;
  }

  lemma NoTurn(a: Angle)
    requires a.Valid()
    ensures Minus(a, a) == Angle(1.0, 0.0)
  {
  }

  lemma TurnBack(f: Angle, theta: Angle)
    requires f.Valid()
    ensures Minus(Plus(f, theta), f) == theta
  {
    var m := Minus(Plus(f, theta), f);
    calc {
      m.c;
      theta.c * (f.c * f.c + f.s * f.s);
      theta.c;
    }
    calc {
      m.s;
      theta.s * (f.c * f.c + f.s * f.s);
      theta.s;
    }
  }

  // ---------------------------------------------------------------------------------------------
  // Limited
  // ---------------------------------------------------------------------------------------------

  predicate IsLimited(input: Input) {
    RegimeOf(input) == VmaxLimited || RegimeOf(input) == VminLimited
  }

  lemma MinusOfPlus(x: Angle, offset: Angle)
    requires offset.Valid()
    ensures Minus(offset, Plus(x, offset)) == Angle(x.c, -x.s)
  {
    var m := Minus(offset, Plus(x, offset));
    calc {
      m.c;
      x.c * (offset.c * offset.c + offset.s * offset.s);
      x.c;
    }
    calc {
      m.s;
      -x.s * (offset.c * offset.c + offset.s * offset.s);
      -x.s;
    }
  }

  lemma LimitedDeckWind(input: Input, root: real)
    requires Sensible(input) && IsRoot(root, Radicand(input)) && IsLimited(input)
    ensures var r := Solve(input, root);
            && r.speed == LimitedSpeed(input) && r.heading.Valid()
            && DownTheDeck(input, r.heading, r.speed) == input.windSpeed * root + r.speed * input.deckOffset.c
            && CrossDeck(input, r.heading, r.speed) ==
               r.speed * input.deckOffset.s - input.windSpeed * LimitedSine(input)
  {
    hide DownTheDeck, CrossDeck, Plus, Minus;
    var x := Angle(root, LimitedSine(input));
    PlusValid(x, input.deckOffset);
    SolvedDeckWind(input, Plus(x, input.deckOffset), LimitedSpeed(input));
    MinusOfPlus(x, input.deckOffset);
    assert input.windSpeed * -x.s == -(input.windSpeed * x.s);
  }

  lemma LimitedSineIs(input: Input)
    requires Sensible(input) && IsLimited(input)
    ensures var pull := LimitedSpeed(input) * input.deckOffset.s;
            input.windSpeed * LimitedSine(input) == if pull <= input.windSpeed then pull else input.windSpeed
  {
    hide RegimeOf, LimitedSpeed, Clamp, SpeedRatio, Sensible;
    LimitedFacts(input);
    ClampedSine(input.windSpeed, LimitedSpeed(input), input.deckOffset.s, LimitedSine(input));
  }

  lemma LimitedFacts(input: Input)
    requires Sensible(input) && IsLimited(input)
    ensures input.windSpeed > 0.0 && input.deckOffset.s >= 0.0 && LimitedSpeed(input) >= 0.0
  {
  }

  lemma ClampedSine(w: real, v: real, s: real, x: real)
    requires w > 0.0 && v >= 0.0 && s >= 0.0 && x == Clamp(SpeedRatio(v, s, w), -1.0, 1.0)
    ensures w * x == if v * s <= w then v * s else w
  {
    var pull := v * s;
    var q := SpeedRatio(v, s, w);
    assert w * q == pull;
    NotNegative(v, s);
    AtMost(w, 0.0, q);
    if q > 1.0 {
      MulKeepsStrictOrder(w, 1.0, q);
    } else {
      MulKeepsOrder(w, q, 1.0);
    }
  }

  /** In a limited regime there is no cross-deck wind if and only if v * sin(offset) is at most the wind
      speed; otherwise the difference is left. */
  lemma LimitedCross(input: Input, root: real)
    requires Sensible(input) && IsRoot(root, Radicand(input)) && IsLimited(input)
    ensures var r := Solve(input, root);
            var cross, pull := CrossDeck(input, r.heading, r.speed), r.speed * input.deckOffset.s;
            && (cross == 0.0 <==> pull <= input.windSpeed)
            && (pull > input.windSpeed ==> cross == pull - input.windSpeed)
  {
    hide CrossDeck, Plus, Minus, LimitedSine, Solve;
    LimitedDeckWind(input, root);
    LimitedSineIs(input);
  }

  function Abs(x: real): real {
    if x < 0.0 then -x else x
  }

  /** At the speed of a limited regime, no heading at all has less cross-deck wind than the solver's. */
  lemma LimitedIsBest(input: Input, root: real, heading: Angle)
    requires Sensible(input) && IsRoot(root, Radicand(input)) && IsLimited(input)
    requires heading.Valid()
    ensures var r := Solve(input, root);
            Abs(CrossDeck(input, r.heading, r.speed)) <= Abs(CrossDeck(input, heading, r.speed))
  {
    hide CrossDeck, DownTheDeck, Plus, Minus, LimitedSine, Solve, Abs, Radicand, RegimeOf;
    var r := Solve(input, root);
    LimitedCross(input, root);
    var wind := Minus(input.windFrom, Minus(heading, input.deckOffset));
    DeckWind(input, heading, r.speed);
    LimitedAngles(input, heading);
    SineAtMostOne(wind);
    AtLeastMinus(input.windSpeed, wind.s);
    LeastAbs(input.windSpeed, r.speed * input.deckOffset.s, CrossDeck(input, r.heading, r.speed),
             input.windSpeed * wind.s, CrossDeck(input, heading, r.speed));
  }

  // A wind of w on one side and at most w on the other.
  lemma LeastAbs(w: real, pull: real, cross: real, side: real, other: real)
    requires (cross == 0.0 <==> pull <= w) && (pull > w ==> cross == pull - w)
    requires -w <= side && other == side + pull
    ensures Abs(cross) <= Abs(other)
  {
  }

  lemma AtLeastMinus(w: real, s: real)
    requires w > 0.0 && -1.0 <= s <= 1.0
    ensures -w <= w * s <= w
  {
    MulKeepsOrder(w, s, 1.0);
    MulKeepsOrder(w, -1.0, s);
  }

  /** Of the headings with no cross-deck wind at that speed, the solver's has the most wind down the deck. */
  lemma LimitedIsStrongest(input: Input, root: real, heading: Angle)
    requires Sensible(input) && IsRoot(root, Radicand(input)) && IsLimited(input)
    requires heading.Valid() && CrossDeck(input, heading, LimitedSpeed(input)) == 0.0
    ensures var r := Solve(input, root);
            DownTheDeck(input, heading, r.speed) <= DownTheDeck(input, r.heading, r.speed)
  {
    hide CrossDeck, DownTheDeck, Plus, Minus, Solve, LimitedSine, RegimeOf, LimitedSpeed;
    var r := Solve(input, root);
    LimitedDeckWind(input, root);
    LimitedSineIs(input);
    var deck := Minus(heading, input.deckOffset);
    var wind := Minus(input.windFrom, deck);
    DeckWind(input, heading, r.speed);
    LimitedAngles(input, heading);
    SineAtMostOne(wind);
    AtLeastMinus(input.windSpeed, wind.s);
    SameCosine(input.windSpeed, wind, root, LimitedSine(input));
  }

  lemma LimitedAngles(input: Input, heading: Angle)
    requires Sensible(input) && heading.Valid()
    ensures Minus(input.windFrom, Minus(heading, input.deckOffset)).Valid() && input.windSpeed > 0.0
  {
    hide Minus;
    MinusValid(heading, input.deckOffset);
    MinusValid(input.windFrom, Minus(heading, input.deckOffset));
  }

  // The same sine but for its sign, so the cosine is at most the root.
  lemma SameCosine(w: real, wind: Angle, root: real, x: real)
    requires w > 0.0 && wind.Valid() && IsRoot(root, 1.0 - x * x)
    requires w * wind.s == -(w * x)
    ensures w * wind.c <= w * root
  {
    var d := wind.s + x;
    assert w * d == 0.0;
    NotMoved(d, w, 0.0);
    assert wind.s == -x;
    assert wind.s * wind.s == x * x;
    if wind.c > root {
      SquareKeepsOrder(root, wind.c);
    }
    MulKeepsOrder(w, wind.c, root);
  }

  lemma OutOfReach(w: real, x: real, c: real, v: real, vmax: real, t: real)
    requires w > 0.0 && -1.0 <= x <= 1.0 && c >= 0.0 && v <= vmax && t > w + c * vmax
    ensures w * x + v * c < t
  {
    calc {
      w * x + v * c;
    <= { AtLeastMinus(w, x); }
      w + v * c;
    ==
      w + c * v;
    <= { MulKeepsOrder(c, v, vmax); }
      w + c * vmax;
    <
      t;
    }
  }

  /** The top-speed regime gives up only on targets out of reach: at no heading and no speed the ship can do
      is there as much wind down the deck as wanted. */
  lemma VmaxIsUnreachable(input: Input, heading: Angle, speed: real)
    requires Sensible(input) && RegimeOf(input) == VmaxLimited
    requires heading.Valid() && input.minSpeed <= speed <= input.maxSpeed
    ensures DownTheDeck(input, heading, speed) < input.targetWod
  {
    hide DownTheDeck, CrossDeck, Plus, Minus;
    var wind := Minus(input.windFrom, Minus(heading, input.deckOffset));
    DeckWind(input, heading, speed);
    MinusValid(heading, input.deckOffset);
    MinusValid(input.windFrom, Minus(heading, input.deckOffset));
    SineAtMostOne(wind);
    RegimeFacts(input);
    hide RegimeOf;
    OutOfReach(input.windSpeed, wind.c, input.deckOffset.c, speed, input.maxSpeed, input.targetWod);
  }

  // ---------------------------------------------------------------------------------------------
  // Targets within reach
  // ---------------------------------------------------------------------------------------------

  predicate Between(low: real, v: real, high: real) {
    low <= v <= high
  }

  predicate InLimits(input: Input, speed: real) {
    Between(input.minSpeed, speed, input.maxSpeed)
  }

  // Exactly the target, straight down the deck.
  ghost predicate Exact(input: Input, heading: Angle, speed: real) {
    DownTheDeck(input, heading, speed) == input.targetWod && CrossDeck(input, heading, speed) == 0.0
  }

  // At some heading and some speed that the ship can do.
  ghost predicate Reachable(input: Input) {
    exists heading: Angle, speed: real :: heading.Valid() && InLimits(input, speed) && Exact(input, heading, speed)
  }

  // At some speed that the ship can do, the target takes exactly this wind.
  ghost predicate SomeSpeedNeedsIt(input: Input) {
    exists v: real ::
      InLimits(input, v) &&
      NeededSquared(input.targetWod, input.deckOffset.c, v) == input.windSpeed * input.windSpeed
  }

  lemma ExactNeeds(input: Input, heading: Angle, speed: real)
    requires Sensible(input) && heading.Valid() && Exact(input, heading, speed)
    ensures NeededSquared(input.targetWod, input.deckOffset.c, speed) == input.windSpeed * input.windSpeed
  {
    hide DownTheDeck, CrossDeck, Plus, Minus, NeededSquared;
    var wind := Minus(input.windFrom, Minus(heading, input.deckOffset));
    DeckWind(input, heading, speed);
    MinusValid(heading, input.deckOffset);
    MinusValid(input.windFrom, Minus(heading, input.deckOffset));
    WindTriangle(input.windSpeed, input.targetWod, input.deckOffset, wind, speed);
  }

  // The wind over the deck is the target less the ship's own.
  lemma WindTriangle(w: real, t: real, offset: Angle, wind: Angle, speed: real)
    requires offset.Valid() && wind.Valid()
    requires w * wind.c == t - speed * offset.c && w * wind.s == -(speed * offset.s)
    ensures NeededSquared(t, offset.c, speed) == w * w
  {
    calc {
      w * w;
      (w * w) * (wind.c * wind.c + wind.s * wind.s);
      (w * wind.c) * (w * wind.c) + (w * wind.s) * (w * wind.s);
      (t - speed * offset.c) * (t - speed * offset.c) + (speed * offset.s) * (speed * offset.s);
      { ShipTriangle(t, offset, speed); }
      NeededSquared(t, offset.c, speed);
    }
  }

  lemma ShipTriangle(t: real, offset: Angle, speed: real)
    requires offset.Valid()
    ensures (t - speed * offset.c) * (t - speed * offset.c) + (speed * offset.s) * (speed * offset.s) ==
            NeededSquared(t, offset.c, speed)
  {
    SquareOfDifference(t, offset.c * speed);
    assert t * (offset.c * speed) == (t * offset.c) * speed;
    SinePart(offset, speed);
  }

  // The heading at which a speed with the right square reaches the target.
  lemma NeededIsExact(input: Input, speed: real) returns (heading: Angle)
    requires Sensible(input)
    requires NeededSquared(input.targetWod, input.deckOffset.c, speed) == input.windSpeed * input.windSpeed
    ensures heading.Valid() && Exact(input, heading, speed)
  {
    hide DownTheDeck, CrossDeck, Plus, Minus, NeededSquared;
    var w := input.windSpeed;
    var wind := WindOf(w, input.targetWod, input.deckOffset, speed);
    var theta := Minus(input.deckOffset, wind);
    MinusValid(input.deckOffset, wind);
    heading := Plus(input.windFrom, theta);
    SolvedDeckWind(input, theta, speed);
    BackAgain(input.deckOffset, wind);
  }

  lemma WindOf(w: real, t: real, offset: Angle, speed: real) returns (wind: Angle)
    requires w > 0.0 && offset.Valid() && NeededSquared(t, offset.c, speed) == w * w
    ensures wind.Valid() && w * wind.c == t - speed * offset.c && w * wind.s == -(speed * offset.s)
  {
    var x, y := t - speed * offset.c, -(speed * offset.s);
    wind := Angle(x / w, y / w);
    TimesQuotient(w, x, wind.c);
    TimesQuotient(w, y, wind.s);
    ShipTriangle(t, offset, speed);
    UnitOf(w, x, y, wind.c, wind.s);
  }

  lemma UnitOf(w: real, x: real, y: real, c: real, s: real)
    requires w > 0.0 && w * c == x && w * s == y && x * x + y * y == w * w
    ensures c * c + s * s == 1.0
  {
    assert w * (w * (c * c + s * s)) == (w * c) * (w * c) + (w * s) * (w * s);
    Cancel(w, w * (c * c + s * s), w);
    Cancel(w, c * c + s * s, 1.0);
  }

  lemma Cancel(w: real, a: real, b: real)
    requires w > 0.0 && w * a == w * b
    ensures a == b
  {
    AtMost(w, a, b);
    AtMost(w, b, a);
  }

  // Speeds at which the target takes exactly this wind: t * c less and plus the root.
  lemma NeededRoots(w: real, t: real, c: real, q: real, v: real)
    requires q >= 0.0 && q * q == w * w - t * t + (t * c) * (t * c)
    ensures NeededSquared(t, c, v) == w * w <==> v == t * c - q || v == t * c + q
  {
    var d := v - t * c;
    SquareOfDifference(v, t * c);
    assert NeededSquared(t, c, v) - w * w == d * d - q * q;
    SameSquare(if d < 0.0 then -d else d, q);
    assert (-d) * (-d) == d * d;
  }

  lemma TooWide(w: real, t: real, offset: Angle, v: real)
    requires offset.Valid() && 0.0 < w < t * offset.s
    ensures NeededSquared(t, offset.c, v) > w * w
  {
    var c, s := offset.c, offset.s;
    SquareOfDifference(v, t * c);
    Square(v - t * c);
    SquareKeepsOrder(w, t * s);
    calc {
      NeededSquared(t, c, v);
      (v - t * c) * (v - t * c) + t * t - (t * c) * (t * c);
      { assert (t * s) * (t * s) == t * t - (t * c) * (t * c) by { SinePart(offset, t); } }
      (v - t * c) * (v - t * c) + (t * s) * (t * s);
    }
  }

  // The greater root within a limit.
  lemma UpperRoot(w: real, t: real, c: real, v: real, q: real)
    requires q >= 0.0 && q * q == w * w - t * t + (t * c) * (t * c)
    ensures t * c + q <= v <==> t * c <= v && NeededSquared(t, c, v) >= w * w
    ensures v <= t * c + q <==> (t * c < v ==> NeededSquared(t, c, v) <= w * w)
  {
    SquareOfDifference(v, t * c);
    assert NeededSquared(t, c, v) - w * w == (v - t * c) * (v - t * c) - q * q;
    if t * c <= v {
      SquaresCompare(q, v - t * c);
      SquaresCompare(v - t * c, q);
    }
  }

  // One of the two speeds at which the target takes exactly the wind lies within the limits: the lesser or the
  // greater one. What the target takes is least at speed t * c.
  predicate RootInLimits(w: real, t: real, c: real, low: real, high: real) {
    || (t * c >= low && NeededSquared(t, c, low) >= w * w && (t * c > high ==> NeededSquared(t, c, high) <= w * w))
    || (t * c <= high && NeededSquared(t, c, high) >= w * w && (t * c < low ==> NeededSquared(t, c, low) <= w * w))
  }

  // The two speeds, for the root of what is left of the wind.
  predicate AreRoots(w: real, t: real, c: real, q: real, less: real, more: real) {
    q >= 0.0 && q * q == w * w - t * t + (t * c) * (t * c) && less == t * c - q && more == t * c + q
  }

  lemma RootInLimitsIs(w: real, t: real, c: real, q: real, less: real, more: real, low: real, high: real)
    requires AreRoots(w, t, c, q, less, more)
    ensures RootInLimits(w, t, c, low, high) <==> Between(low, less, high) || Between(low, more, high)
  {
    hide NeededSquared;
    LowerLimit(w, t, c, low, q);
    UpperLimit(w, t, c, high, q);
    UpperRoot(w, t, c, low, q);
    UpperRoot(w, t, c, high, q);
  }

  /** Whether some heading and some speed within the limits have exactly the target straight down the deck: exactly
      when, at some speed within them, that target takes exactly the wind; and, with the root handed in, exactly when
      a speed that does lies within them, which the limits alone decide. */
  lemma ReachableIs(input: Input, q: real)
    requires Sensible(input)
    requires var w, ts := input.windSpeed, input.targetWod * input.deckOffset.s;
             ts <= w ==> IsRoot(q, w * w - ts * ts)
    ensures var w, t, c := input.windSpeed, input.targetWod, input.deckOffset.c;
            && (Reachable(input) <==> SomeSpeedNeedsIt(input))
            && (Reachable(input) <==>
                t * input.deckOffset.s <= w && RootInLimits(w, t, c, input.minSpeed, input.maxSpeed))
  {
    hide NeededSquared, Angle.Valid, RootInLimits, Reachable, SomeSpeedNeedsIt, InLimits, IsRoot;
    ReachableNeeds(input);
    if input.targetWod * input.deckOffset.s <= input.windSpeed {
      RootCase(input, q);
    } else {
      NoRootCase(input);
    }
  }

  lemma RootCase(input: Input, q: real)
    requires var w, ts := input.windSpeed, input.targetWod * input.deckOffset.s;
             input.deckOffset.Valid() && IsRoot(q, w * w - ts * ts)
    ensures var w, t, c := input.windSpeed, input.targetWod, input.deckOffset.c;
            SomeSpeedNeedsIt(input) <==> RootInLimits(w, t, c, input.minSpeed, input.maxSpeed)
  {
    var w, t, c := input.windSpeed, input.targetWod, input.deckOffset.c;
    RootSquare(w, t, input.deckOffset, q);
    var less, more := t * c - q, t * c + q;
    assert AreRoots(w, t, c, q, less, more);
    hide NeededSquared, Angle.Valid, RootInLimits, SomeSpeedNeedsIt, Between, AreRoots;
    RootInLimitsIs(w, t, c, q, less, more, input.minSpeed, input.maxSpeed);
    RootSpeeds(input, q, less, more);
  }

  lemma NoRootCase(input: Input)
    requires Sensible(input) && input.targetWod * input.deckOffset.s > input.windSpeed
    ensures !SomeSpeedNeedsIt(input)
  {
    hide NeededSquared, Angle.Valid;
    if v :| InLimits(input, v)
            && NeededSquared(input.targetWod, input.deckOffset.c, v) == input.windSpeed * input.windSpeed {
      TooWide(input.windSpeed, input.targetWod, input.deckOffset, v);
    }
  }

  lemma RootSpeeds(input: Input, q: real, less: real, more: real)
    requires AreRoots(input.windSpeed, input.targetWod, input.deckOffset.c, q, less, more)
    ensures SomeSpeedNeedsIt(input) <==> InLimits(input, less) || InLimits(input, more)
  {
    hide NeededSquared;
    var w, t, c := input.windSpeed, input.targetWod, input.deckOffset.c;
    NeededRoots(w, t, c, q, less);
    NeededRoots(w, t, c, q, more);
    if v :| InLimits(input, v) && NeededSquared(t, c, v) == w * w {
      NeededRoots(w, t, c, q, v);
    }
  }

  lemma RootSquare(w: real, t: real, offset: Angle, q: real)
    requires offset.Valid() && q * q == w * w - (t * offset.s) * (t * offset.s)
    ensures q * q == w * w - t * t + (t * offset.c) * (t * offset.c)
  {
    SinePart(offset, t);
  }

  lemma ReachableNeeds(input: Input)
    requires Sensible(input)
    ensures Reachable(input) <==> SomeSpeedNeedsIt(input)
  {
    hide Exact, NeededSquared, Angle.Valid;
    var w, t, c := input.windSpeed, input.targetWod, input.deckOffset.c;
    if Reachable(input) {
      var heading: Angle, speed: real :|
        heading.Valid() && InLimits(input, speed) && Exact(input, heading, speed);
      ExactNeeds(input, heading, speed);
    }
    if v :| InLimits(input, v) && NeededSquared(t, c, v) == w * w {
      var heading := NeededIsExact(input, v);
    }
  }

  // ---------------------------------------------------------------------------------------------
  // Weak wind
  // ---------------------------------------------------------------------------------------------

  /** In a weak wind the ship keeps its course; with the headwind measured on that course, the wind over the
      bow is the target if and only if the speed it asks for is within the ship's limits. */
  lemma WeakWindKeepsCourse(input: Input, root: real)
    requires input.windFrom.Valid() && input.heading.Valid() && input.windSpeed >= 0.0
    requires input.minSpeed <= input.maxSpeed
    requires RegimeOf(input) == WeakWind && IsRoot(root, Radicand(input))
    requires input.naturalHeadwind == input.windSpeed * Minus(input.windFrom, input.heading).c
    ensures var r := Solve(input, root);
            && r.heading == input.heading
            && (Along(ApparentWind(input.windFrom, input.windSpeed, r.heading, r.speed), r.heading) == input.targetWod
                <==> Unclamped(input, root))
  {
    hide Along, Minus, ApparentWind;
    var r := Solve(input, root);
    ApparentSeen(input.windFrom, input.windSpeed, r.heading, r.speed, r.heading);
    NoTurn(r.heading);
  }

  // ---------------------------------------------------------------------------------------------
  // Inputs that fail
  // ---------------------------------------------------------------------------------------------

  // A wind of 10 from the north, a target of 40/3 and a deck at the angle with cosine 4/5 and sine 3/5.
  function Example(minSpeed: real, maxSpeed: real): Input {
    Input(Angle(1.0, 0.0), 10.0, 40.0 / 3.0, Angle(0.8, 0.6), minSpeed, maxSpeed, 3.0, Angle(1.0, 0.0), 10.0)
  }

  /** An optimal speed that the ship cannot do: at its top speed of 4.5 the wind misses the target. */
  lemma OptimalMissed()
    ensures var input, root := Example(0.0, 4.5), 0.6;
            && Sensible(input) && RegimeOf(input) == Optimal && IsRoot(root, Radicand(input))
            && var r := Solve(input, root);
               DownTheDeck(input, r.heading, r.speed) != input.targetWod || CrossDeck(input, r.heading, r.speed) != 0.0
  {
    var input := Example(0.0, 4.5);
    assert OptimalSine(input) == 0.8;
    hide DownTheDeck, CrossDeck, Plus;
    OptimalIsExact(input, 0.6);
  }

  /** Targets that the solver gives up on although the ship reaches them exactly: from a slowest speed of 4.5 at
      14/3, and from one of 10 at 50/3, with the wind from the other side. */
  lemma VminMissed()
    ensures var input := Example(4.5, 30.0);
            Sensible(input) && RegimeOf(input) == VminLimited && Reachable(input)
    ensures var input := Example(10.0, 30.0);
            Sensible(input) && RegimeOf(input) == VminLimited && Reachable(input)
  {
    ReachableNeeds(Example(4.5, 30.0));
    ReachableNeeds(Example(10.0, 30.0));
    hide Reachable;
    assert NeededSquared(40.0 / 3.0, 0.8, 14.0 / 3.0) == 100.0 && InLimits(Example(4.5, 30.0), 14.0 / 3.0);
    assert NeededSquared(40.0 / 3.0, 0.8, 50.0 / 3.0) == 100.0 && InLimits(Example(10.0, 30.0), 50.0 / 3.0);
  }

  // ---------------------------------------------------------------------------------------------
  // Headings in degrees
  // ---------------------------------------------------------------------------------------------

  function Truncate(x: real): int {
    if x >= 0.0 then x.Floor else -((-x).Floor)
  }

  // The remainder of a division by 360 that has the sign of the dividend.
  function Remainder(value: real): real {
    value - 360.0 * Truncate(value / 360.0) as real
  }

  function Mod360(value: real): real {
    Remainder(Remainder(value) + 360.0)
  }

  function HeadingDiff(a: real, b: real): real {
    Abs(Mod360(a - b + 180.0) - 180.0)
  }

  /** The double remainder is the floored one: the representative of the angle in 0..360. */
  lemma Mod360Is(value: real) returns (turns: int)
    ensures 0.0 <= Mod360(value) < 360.0
    ensures Mod360(value) == value - 360.0 * turns as real
  {
    var first := Truncate(value / 360.0);
    var second := Truncate((Remainder(value) + 360.0) / 360.0);
    turns := first - 1 + second;
  }

  lemma SameHeading(a: real, b: real, turns: int)
    requires a == b + 360.0 * turns as real
    ensures Mod360(a) == Mod360(b)
  {
    var m := Mod360Is(a);
    var n := Mod360Is(b);
    hide Mod360;
    assert Mod360(a) - Mod360(b) == 360.0 * (turns - m + n) as real;
  }

  // The difference with some whole turns added.
  function Turned(a: real, b: real, turns: int): real {
    Abs(a - b + 360.0 * turns as real)
  }

  lemma HalfTurnIsSmallest(x: real, turns: int)
    requires -180.0 <= x <= 180.0
    ensures Abs(x) <= Abs(x + 360.0 * turns as real)
  {
    if turns >= 1 {
      assert 360.0 * turns as real >= 360.0;
    } else if turns <= -1 {
      assert 360.0 * turns as real <= -360.0;
    }
  }

  lemma HeadingDiffIs(a: real, b: real) returns (turns: int)
    ensures -180.0 <= a - b + 360.0 * turns as real < 180.0
    ensures HeadingDiff(a, b) == Turned(a, b, turns)
  {
    var m := Mod360Is(a - b + 180.0);
    hide Mod360;
    turns := -m;
  }

  /** The heading difference is the smallest absolute difference over all whole turns. */
  lemma HeadingDiffIsSmallest(a: real, b: real, turns: int)
    ensures HeadingDiff(a, b) <= Turned(a, b, turns)
    ensures exists k :: HeadingDiff(a, b) == Turned(a, b, k)
  {
    hide HeadingDiff;
    var k := HeadingDiffIs(a, b);
    HalfTurnIsSmallest(a - b + 360.0 * k as real, turns - k);
  }

  lemma HeadingDiffIsSymmetric(a: real, b: real)
    ensures HeadingDiff(a, b) == HeadingDiff(b, a) <= 180.0
  {
    hide HeadingDiff;
    var k := HeadingDiffIs(a, b);
    var l := HeadingDiffIs(b, a);
    HalfTurnIsSmallest(a - b + 360.0 * k as real, -k - l);
    HalfTurnIsSmallest(b - a + 360.0 * l as real, -k - l);
  }

  /** The solver's heading in degrees, the half turns it adds to the direction the wind blows to, is the
      wind's direction plus theta. */
  lemma HeadingInDegrees(windFrom: real, theta: real)
    ensures Mod360(540.0 + Mod360(windFrom + 180.0) + theta) == Mod360(windFrom + theta)
  {
    var m := Mod360Is(windFrom + 180.0);
    hide Mod360;
    SameHeading(540.0 + Mod360(windFrom + 180.0) + theta, windFrom + theta, 2 - m);
  }
}

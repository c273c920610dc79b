/** Values shared by every part of the model: optional values, JavaScript numbers
    (which may be non-finite), 2D vectors and the duck-typed velocity record that the
    metric functions read from a particle. */
module Common {

  datatype Option<+T> = None | Some(value: T) {
    /** `x ?? d` */
    function GetOr(default: T): T {
      match this
      case Some(v) => v
      case None => default
    }
  }

  /** A JavaScript number. A value of another type handed to `Number.isFinite` behaves
      like `NaN` there, so inputs that the source only tests for finiteness use this type
      for non-numbers too. */
  datatype Num = Fin(r: real) | NaN | PosInf | NegInf {
    /** `Number.isFinite(this)` */
    predicate IsFinite() { Fin? }

    /** `Number.isFinite(this) ? this : d` */
    function FiniteOr(d: real): (v: real)
      ensures IsFinite() ==> v == r
      ensures !IsFinite() ==> v == d
    {
      if Fin? then r else d
    }
  }

  datatype Vec2 = Vec2(x: real, y: real)

  /** A chart point `{x, y}`. */
  datatype Point = Point(x: real, y: real)

  /** Both components multiplied by `f`. */
  function ScaleVec(v: Vec2, f: real): Vec2 {
    Vec2(v.x * f, v.y * f)
  }

  /** The squared length x² + y² of a velocity. */
  function SquaredLength(v: Vec2): real {
    v.x * v.x + v.y * v.y
  }

  /** What the metric functions see of a particle: a Matter body carries a `velocity`
      object, a legacy particle carries `vx`/`vy`; `p.velocity?.x ?? p.vx ?? 0` picks
      the first one present. */
  datatype Body = Body(velocity: Option<Vec2>, vx: Option<real>, vy: Option<real>)

  function VelX(b: Body): real {
    match b.velocity
    case Some(v) => v.x
    case None => b.vx.GetOr(0.0)
  }

  function VelY(b: Body): real {
    match b.velocity
    case Some(v) => v.y
    case None => b.vy.GetOr(0.0)
  }

  /** vx² + vy² of one particle. */
  function SpeedSquared(b: Body): (s: real)
    ensures 0.0 <= s
  {
    VelX(b) * VelX(b) + VelY(b) * VelY(b)
  }

  /** Σ (vx² + vy²), accumulated front to back as the source's loops do. */
  function SumSpeedSquared(bs: seq<Body>): (s: real)
    ensures 0.0 <= s
  {
    if |bs| == 0 then 0.0 else SumSpeedSquared(bs[..|bs| - 1]) + SpeedSquared(bs[|bs| - 1])
  }

  /** Σ s[i], front to back. */
  function Sum(s: seq<real>): real {
    if |s| == 0 then 0.0 else Sum(s[..|s| - 1]) + s[|s| - 1]
  }

  function SumNat(s: seq<nat>): nat {
    if |s| == 0 then 0 else SumNat(s[..|s| - 1]) + s[|s| - 1]
  }

  function Min(a: int, b: int): int { if a <= b then a else b }
  function Max(a: int, b: int): int { if a <= b then b else a }
  function MaxR(a: real, b: real): real { if a <= b then b else a }
  function MinR(a: real, b: real): real { if a <= b then a else b }
  function AbsR(a: real): real { if a < 0.0 then -a else a }

  /** `Math.ceil` of a real. */
  function Ceil(x: real): int {
    -((-x).Floor)
  }

  /** The last `k` elements of `s` (`s.slice(-k)` for k > 0), all of `s` when it is shorter. */
  function LastN<T>(s: seq<T>, k: nat): (r: seq<T>)
    ensures |r| == Min(|s|, k)
    ensures r == s[|s| - |r|..]
  {
    if |s| <= k then s else s[|s| - k..]
  }
}

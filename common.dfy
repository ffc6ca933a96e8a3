/** Values shared by the client and the server: points, the loosely typed
    `draw_event` payload as it travels over the wire, cursor messages, and
    JavaScript's notion of a "truthy" optional field. */
module Common {

  datatype Option<+T> = None | Some(value: T)

  /** A canvas-local coordinate pair (floats in the source, reals here). */
  datatype Point = Point(x: real, y: real)

  /** The `points` field of a payload: missing, present but not an array, or an array. */
  datatype Points = Absent | NotArray | Arr(pts: seq<Point>)

  /** A `draw_event` payload. `NonObject` stands for `null`, `undefined` and
      primitives; an object carries the fields the core reads, each possibly
      missing. */
  datatype Payload =
    | NonObject
    | Obj(kind: Option<string>, opId: Option<string>, userId: Option<string>,
          points: Points, color: Option<string>, size: Option<real>, ts: Option<int>)

  /** A `cursor` message: `{x, y}` from the client, tagged with `userId` and
      `color` by the server. */
  datatype Cursor = Cursor(userId: Option<string>, x: Option<real>, y: Option<real>, color: Option<string>)

  /** `s` in a JavaScript condition: present and not the empty string. */
  predicate Truthy(s: Option<string>) {
    s.Some? && s.value != ""
  }

  /** `n` in a JavaScript condition: present and not zero. */
  predicate TruthyInt(n: Option<int>) {
    n.Some? && n.value != 0
  }

  /** `a || b` on optional strings. */
  function OrElse(a: Option<string>, b: Option<string>): (r: Option<string>)
    ensures Truthy(a) ==> r == a
    ensures !Truthy(a) ==> r == b
  {
    if Truthy(a) then a else b
  }

  /** The payload carries an array of at least `n` points. */
  predicate HasPoints(p: Payload, n: nat) {
    p.Obj? && p.points.Arr? && |p.points.pts| >= n
  }

  /** `a` is obtained from `b` by deleting elements, keeping the order. */
  predicate Subsequence<T(==)>(a: seq<T>, b: seq<T>)
    decreases |b|
  {
    if a == [] then true
    else if b == [] then false
    else if a[|a| - 1] == b[|b| - 1] then Subsequence(a[..|a| - 1], b[..|b| - 1])
    else Subsequence(a, b[..|b| - 1])
  }

  /** Dropping the last element of a subsequence keeps it a subsequence. */
  lemma {:induction false} SubsequenceDropLast<T>(a: seq<T>, b: seq<T>)
    requires a != [] && Subsequence(a, b)
    ensures Subsequence(a[..|a| - 1], b)
    decreases |b|
  {
    var a' := a[..|a| - 1];
    var b' := b[..|b| - 1];
    if a' != [] {
      if a[|a| - 1] == b[|b| - 1] {
        SubsequenceDropLast(a', b');
      } else {
        SubsequenceDropLast(a, b');
        if a'[|a'| - 1] == b[|b| - 1] {
          SubsequenceDropLast(a', b');
        }
      }
    }
  }

  /** Growing the longer sequence keeps a subsequence a subsequence. */
  lemma {:induction false} SubsequenceExtend<T>(a: seq<T>, b: seq<T>, x: T)
    requires Subsequence(a, b)
    ensures Subsequence(a, b + [x])
  {
    assert (b + [x])[..|b|] == b;
    if a != [] && a[|a| - 1] == x {
      SubsequenceDropLast(a, b);
    }
  }

  function Abs(n: int): (r: nat)
    ensures r == n || r == -n
  {
    if n < 0 then -n else n
  }
}

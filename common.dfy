/** Values shared by every component: optional references, engine vectors, Unity's rounding,
    and the part of a physics collider the game logic looks at. */
module Common {

  /** A reference that may be null (a destroyed Unity object compares equal to null). */
  datatype Option<+T> = None | Some(value: T)

  /** Unity's Vector3, over exact reals. */
  datatype Vec3 = Vec3(x: real, y: real, z: real)

  /** Unity's Vector2Int. */
  datatype Vec2Int = Vec2Int(x: int, y: int)

  /** Identity of a GameObject (instantiated objects get fresh ids). */
  type ObjId = int

  /** No id occurs twice. */
  predicate Distinct(s: seq<ObjId>)
  {
    forall i, j :: 0 <= i < j < |s| ==> s[i] != s[j]
  }

  /** The ids of `n` consecutive Instantiate calls, starting at `from`. */
  function Fresh(from: int, n: nat): (r: seq<ObjId>)
    ensures |r| == n
    ensures forall k :: 0 <= k < n ==> r[k] == from + k
  {
    if n == 0 then [] else Fresh(from, n - 1) + [from + n - 1]
  }

  /** Appending fresh ids to a list of older distinct ids keeps the ids distinct; the old entries stay
      below `from`, the new ones are at least `from`, and all are below `from + n`. */
  lemma AppendFresh(s: seq<ObjId>, from: int, n: nat)
    requires Distinct(s) && forall k :: 0 <= k < |s| ==> s[k] < from
    ensures Distinct(s + Fresh(from, n))
    ensures forall k :: 0 <= k < |s + Fresh(from, n)| ==>
      (s + Fresh(from, n))[k] < from + n && (k < |s| <==> (s + Fresh(from, n))[k] < from)
  {
    var f := Fresh(from, n);
    var r := s + f;
    forall k | 0 <= k < |r|
      ensures r[k] == if k < |s| then s[k] else from + (k - |s|)
    {
      if k >= |s| {
        assert r[k] == f[k - |s|];
      }
    }
  }

  /** Appending an id not yet in a list of distinct ids keeps them distinct. */
  lemma AppendNew(s: seq<ObjId>, a: ObjId)
    requires Distinct(s) && a !in s
    ensures Distinct(s + [a])
    ensures forall k :: 0 <= k < |s| + 1 ==> (s + [a])[k] == if k < |s| then s[k] else a
  {
  }

  /** Identity of an enemy GameObject. */
  type EnemyId = int

  function Max(a: int, b: int): int { if a >= b then a else b }

  /** max(0, x). */
  function Max0(x: int): nat { if x >= 0 then x else 0 }

  function MaxReal(a: real, b: real): real { if a >= b then a else b }

  /** Mathf.RoundToInt over exact reals: to the nearest integer, halves to the even neighbour. */
  function RoundToInt(r: real): (n: int)
    ensures -0.5 <= n as real - r <= 0.5
    ensures r == r.Floor as real ==> n == r.Floor
  {
    var f := r.Floor;
    var frac := r - f as real;
    if frac < 0.5 then f
    else if frac > 0.5 then f + 1
    else if f % 2 == 0 then f
    else f + 1
  }

  /** A Unity layer index (0..31). */
  type Layer = l: int | 0 <= l < 32

  /** A collider returned by a physics overlap query: its tag, its layer, the Enemy component found on
      its transform (if any), and whether its transform is a child of the placement preview. */
  datatype Collider = Collider(tag: string, layer: Layer, enemy: Option<EnemyId>, childOfPreview: bool)
}

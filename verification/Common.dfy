/** Shared vocabulary: optional values, KiB arithmetic, and sums over finite sets. */
module Common {

  /** A dictionary entry or field that may be absent. */
  datatype Option<+T> = None | Some(value: T) {
    function GetOr(default: T): T {
      match this
      case Some(v) => v
      case None => default
    }
  }

  /** Process ids, process start identities and other opaque tokens. */
  type Pid = int
  type Start = int
  type Token = int

  /** 1 GiB in KiB. */
  const GIB: int := 1048576

  function Max(a: int, b: int): int { if a >= b then a else b }

  function Min(a: int, b: int): int { if a <= b then a else b }

  function MaxReal(a: real, b: real): real { if a >= b then a else b }

  function Lookup<K, V>(m: map<K, V>, k: K): Option<V> {
    if k in m then Some(m[k]) else None
  }

  /** Some element of a non-empty set. */
  ghost function Pick<T>(s: set<T>): (p: T)
    requires s != {}
    ensures p in s
  {
    var p :| p in s;
    p
  }

  /** The next entry a dictionary or set iteration yields: any one, so that every
      loop over Take is verified for all iteration orders. */
  method Take<T(==)>(s: set<T>) returns (p: T)
    requires s != {}
    ensures p in s
  {
    p :| p in s;
  }

  /** Sum of f over a finite set, in any order. */
  ghost function Sum(s: set<Pid>, f: Pid -> int): int {
    if s == {} then 0 else var p := Pick(s); f(p) + Sum(s - {p}, f)
  }

  /** The summation order does not matter: any element may be taken out first. */
  lemma {:induction false} SumRemove(s: set<Pid>, p: Pid, f: Pid -> int)
    requires p in s
    ensures Sum(s, f) == f(p) + Sum(s - {p}, f)
    decreases |s|
  {
    var q := Pick(s);
    if q != p {
      SumRemove(s - {q}, p, f);
      SumRemove(s - {p}, q, f);
      assert s - {q} - {p} == s - {p} - {q};
    }
  }

  lemma {:induction false} SumUnion(a: set<Pid>, b: set<Pid>, f: Pid -> int)
    requires a !! b
    ensures Sum(a + b, f) == Sum(a, f) + Sum(b, f)
    decreases |a|
  {
    if a == {} {
      assert a + b == b;
    } else {
      var p := Pick(a);
      SumRemove(a, p, f);
      SumRemove(a + b, p, f);
      assert a + b - {p} == (a - {p}) + b;
      SumUnion(a - {p}, b, f);
    }
  }

  /** A non-negative function sums to something between zero and the sum over any superset. */
  lemma {:induction false} SumSubset(a: set<Pid>, b: set<Pid>, f: Pid -> int)
    requires a <= b
    requires forall p :: p in b ==> f(p) >= 0
    ensures 0 <= Sum(a, f) <= Sum(b, f)
    decreases |b|
  {
    if b != {} {
      var p := Pick(b);
      SumRemove(b, p, f);
      if p in a {
        SumRemove(a, p, f);
        SumSubset(a - {p}, b - {p}, f);
      } else {
        SumSubset(a, b - {p}, f);
      }
    }
  }
}

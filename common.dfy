/** Shared vocabulary: optional values, handler outcomes, and the few list
    operations (filter, find, Math.max-based id generation) the engine is built from. */
module Common {

  datatype Option<T> = None | Some(value: T) {
    function GetOr(default: T): T {
      match this
      case Some(v) => v
      case None => default
    }
  }

  /** What an HTTP handler answers: a JSON payload, or one of the error statuses. */
  datatype Response<T> = Ok(payload: T) | Err400 | Err401 | Err403 | Err404

  /** Passes an error status on to a handler with a different payload type. */
  function Forward<S, T>(e: Response<S>): (r: Response<T>)
    requires !e.Ok?
    ensures !r.Ok?
    ensures r.Err400? == e.Err400? && r.Err401? == e.Err401?
    ensures r.Err403? == e.Err403? && r.Err404? == e.Err404?
  {
    match e
    case Err400 => Err400
    case Err401 => Err401
    case Err403 => Err403
    case Err404 => Err404
  }

  /** JavaScript truthiness of an optional number: present and not 0. */
  predicate Truthy(n: Option<int>) {
    n.Some? && n.value != 0
  }

  /** JavaScript truthiness of an optional string: present and not empty. */
  predicate Given(s: Option<string>) {
    s.Some? && s.value != ""
  }

  // ---------------------------------------------------------------------------
  // Array.prototype.filter

  /** The elements of `s` that satisfy `keep`, in their original order. */
  function Filter<T(!new)>(s: seq<T>, keep: T -> bool): (r: seq<T>)
    ensures |r| <= |s|
    ensures forall x :: x in r <==> x in s && keep(x)
  {
    if s == [] then []
    else
      var rest := Filter(s[1..], keep);
      assert forall x :: x in s <==> x == s[0] || x in s[1..];
      if keep(s[0]) then [s[0]] + rest else rest
  }

  /** Filtering distributes over concatenation: it keeps the relative order. */
  lemma {:induction false} FilterAppend<T(!new)>(a: seq<T>, b: seq<T>, keep: T -> bool)
    ensures Filter(a + b, keep) == Filter(a, keep) + Filter(b, keep)
  {
    if a == [] {
      assert a + b == b;
    } else {
      assert (a + b)[1..] == a[1..] + b;
      FilterAppend(a[1..], b, keep);
    }
  }

  /** A filter that no element passes returns the empty list. */
  lemma {:induction false} FilterKeepsNone<T(!new)>(s: seq<T>, keep: T -> bool)
    requires forall x :: x in s ==> !keep(x)
    ensures Filter(s, keep) == []
  {
    if s != [] {
      assert forall x :: x in s[1..] ==> x in s;
      FilterKeepsNone(s[1..], keep);
    }
  }

  /** Filtering by a stronger condition after a weaker one is filtering by the stronger one. */
  lemma {:induction false} FilterFilter<T(!new)>(s: seq<T>, weak: T -> bool, strong: T -> bool)
    requires forall x :: strong(x) ==> weak(x)
    ensures Filter(Filter(s, weak), strong) == Filter(s, strong)
  {
    if s != [] {
      FilterFilter(s[1..], weak, strong);
      if weak(s[0]) {
        assert Filter(s, weak) == [s[0]] + Filter(s[1..], weak);
        FilterAppend([s[0]], Filter(s[1..], weak), strong);
      }
    }
  }

  /** Two filters commute. */
  lemma {:induction false} FilterCommute<T(!new)>(s: seq<T>, f: T -> bool, g: T -> bool)
    ensures Filter(Filter(s, f), g) == Filter(Filter(s, g), f)
  {
    if s != [] {
      FilterCommute(s[1..], f, g);
      FilterAppend([s[0]], Filter(s[1..], f), g);
      FilterAppend([s[0]], Filter(s[1..], g), f);
    }
  }

  // ---------------------------------------------------------------------------
  // Array.prototype.findIndex / find

  /** Index of the first element satisfying `p`, or -1 when there is none. */
  function FindIndex<T>(s: seq<T>, p: T -> bool): (i: int)
    ensures -1 <= i < |s|
    ensures i == -1 <==> forall k :: 0 <= k < |s| ==> !p(s[k])
    ensures 0 <= i ==> p(s[i]) && forall k :: 0 <= k < i ==> !p(s[k])
  {
    if s == [] then -1
    else if p(s[0]) then 0
    else
      var j := FindIndex(s[1..], p);
      if j == -1 then -1 else j + 1
  }

  /** The first element satisfying `p`, if any. */
  function Find<T(!new)>(s: seq<T>, p: T -> bool): (r: Option<T>)
    ensures r.None? <==> forall x :: x in s ==> !p(x)
    ensures r.Some? ==> r.value in s && p(r.value)
    ensures r.Some? ==> exists i :: 0 <= i < |s| && s[i] == r.value && forall k :: 0 <= k < i ==> !p(s[k])
  {
    var i := FindIndex(s, p);
    if i < 0 then None else Some(s[i])
  }

  // ---------------------------------------------------------------------------
  // Record ids: projection, lookup by id, and generation of a fresh id

  /** The id of every record, in order; `idOf` selects the record's id field. */
  function Ids<T>(s: seq<T>, idOf: T -> int): (ids: seq<int>)
    ensures |ids| == |s| && forall i :: 0 <= i < |s| ==> ids[i] == idOf(s[i])
  {
    seq(|s|, i requires 0 <= i < |s| => idOf(s[i]))
  }

  /** The position of the first record whose id is `id`, or -1 when no record has it. */
  function IndexOfId<T>(s: seq<T>, idOf: T -> int, id: int): (k: int)
    ensures -1 <= k < |s|
    ensures k == -1 <==> forall i :: 0 <= i < |s| ==> idOf(s[i]) != id
    ensures 0 <= k ==> idOf(s[k]) == id && forall i :: 0 <= i < k ==> idOf(s[i]) != id
  {
    FindIndex(s, (x: T) => idOf(x) == id)
  }

  /** Math.max over a non-empty list. */
  function Max(s: seq<int>): (m: int)
    requires |s| > 0
    ensures m in s
    ensures forall x :: x in s ==> x <= m
  {
    if |s| == 1 then s[0]
    else
      var rest := Max(s[1..]);
      assert forall x :: x in s ==> x == s[0] || x in s[1..];
      if s[0] >= rest then s[0] else rest
  }

  /** The id the source gives a new record: one more than the largest id, or 1. */
  function NextId(ids: seq<int>): (n: int)
    ensures forall x :: x in ids ==> x < n
    ensures ids == [] ==> n == 1
    ensures ids != [] ==> n - 1 in ids
  {
    if |ids| > 0 then Max(ids) + 1 else 1
  }

  /** No id occurs twice. */
  predicate DistinctIds(ids: seq<int>) {
    forall i, j :: 0 <= i < j < |ids| ==> ids[i] != ids[j]
  }

  /** Appending the id NextId chose keeps the ids distinct. */
  lemma NextIdKeepsDistinct(ids: seq<int>)
    requires DistinctIds(ids)
    ensures DistinctIds(ids + [NextId(ids)])
  {
    var n := NextId(ids);
    forall i, j | 0 <= i < j < |ids| + 1
      ensures (ids + [n])[i] != (ids + [n])[j]
    {
      if j == |ids| {
        assert ids[i] in ids;
      }
    }
  }

  /** Removing records keeps the remaining ids distinct. */
  lemma {:induction false} FilterKeepsDistinctIds<T(!new)>(s: seq<T>, keep: T -> bool, idOf: T -> int)
    requires DistinctIds(Ids(s, idOf))
    ensures DistinctIds(Ids(Filter(s, keep), idOf))
  {
    if s != [] {
      var rest := s[1..];
      assert DistinctIds(Ids(rest, idOf)) by {
        forall i, j | 0 <= i < j < |rest| ensures idOf(rest[i]) != idOf(rest[j]) {
          assert rest[i] == s[i + 1] && rest[j] == s[j + 1];
        }
      }
      FilterKeepsDistinctIds(rest, keep, idOf);
      assert forall x :: x in rest ==> idOf(x) != idOf(s[0]) by {
        forall x | x in rest ensures idOf(x) != idOf(s[0]) {
          var m :| 0 <= m < |rest| && rest[m] == x;
          assert s[m + 1] == x;
        }
      }
      var fr := Filter(rest, keep);
      assert Filter(s, keep) == if keep(s[0]) then [s[0]] + fr else fr;
    }
  }
}

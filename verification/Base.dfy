/** Values shared by every module: optional values, results and the errors the service raises. */
module Base {

  datatype Option<+T> = None | Some(value: T)

  /** One constructor per exception class that a caller of the service can tell apart. */
  datatype Error =
    | NotFound
    | VersionConflict
    | NodeAlreadyReserved
    | DomainError
    | IntegrityError
    | ValueError
    | RuntimeError(text: string)

  datatype Result<+T> = Ok(value: T) | Err(error: Error)

  /** Python's truth value of an optional string: both None and "" are false. */
  predicate Truthy(s: Option<string>) {
    s.Some? && s.value != ""
  }

  /** The first 1000 characters. */
  function Truncate(s: string): string {
    if |s| <= 1000 then s else s[..1000]
  }

  predicate Distinct<T(==)>(s: seq<T>) {
    forall i, j | 0 <= i < j < |s| :: s[i] != s[j]
  }

  /** The first n elements; a negative n counts from the end. */
  function TakeFirst<T>(s: seq<T>, n: int): seq<T> {
    if n >= 0 then s[..if n <= |s| then n else |s|]
    else if |s| + n >= 0 then s[..|s| + n]
    else []
  }

  /** The sum of the values of a map. */
  ghost function Total<K>(m: map<K, int>): int
    decreases |m|
  {
    if m == map[] then 0
    else
      var k :| k in m;
      m[k] + Total(m - {k})
  }

  lemma TotalSplit<K>(m: map<K, int>, k: K)
    requires k in m
    ensures Total(m) == m[k] + Total(m - {k})
    decreases |m|
  {
    var l :| l in m && Total(m) == m[l] + Total(m - {l});
    if l != k {
      TotalSplit(m - {l}, k);
      TotalSplit(m - {k}, l);
      assert m - {l} - {k} == m - {k} - {l};
    }
  }

  lemma TotalUpdate<K>(m: map<K, int>, k: K, v: int)
    ensures Total(m[k := v]) == Total(m) + v - if k in m then m[k] else 0
  {
    TotalSplit(m[k := v], k);
    if k in m {
      TotalSplit(m, k);
      assert m[k := v] - {k} == m - {k};
    } else {
      assert m[k := v] - {k} == m;
    }
  }
}

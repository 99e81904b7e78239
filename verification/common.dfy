/** Shared vocabulary of the chat client: optional values, results, the two
    message shapes the client passes around, JavaScript's `String.prototype.trim`
    and the stable sort behind `Array.prototype.sort` with a numeric comparator. */
module Common {

  datatype Option<+T> = None | Some(value: T) {
    function GetOr(default: T): T {
      match this
      case Some(v) => v
      case None => default
    }
  }

  /** JavaScript truthiness of an optional string: `undefined` and `""` are
      falsy, every other string is truthy. */
  function Truthy(s: Option<string>): (b: bool)
    ensures s.None? ==> !b
    ensures s == Some("") ==> !b
    ensures s.Some? && |s.value| > 0 ==> b
  {
    s.Some? && s.value != ""
  }

  datatype Result<+T, +E> = Ok(value: T) | Err(error: E)

  /** The roles a chat-completion message can carry. */
  datatype Role = System | User | Assistant

  /** `{ role, content }`: the shape sent to an inference engine. */
  datatype RoleMessage = RoleMessage(role: Role, content: string)

  /** `{ id, content, isUser, timestamp }`: the shape the chat view and the
      conversation store keep. Timestamps are opaque display strings. */
  datatype Message = Message(id: int, content: string, isUser: bool, timestamp: string)

  /** The fields a model worker posts to the page: a status word and the
      optional payload fields read by the listeners. */
  datatype WorkerEvent = WorkerEvent(
    status: string,
    data: Option<string>,
    output: Option<string>,
    file: Option<string>,
    progress: Option<int>,
    total: Option<int>)

  /** Concatenation of a sequence of strings, first to last. */
  function Concat(ss: seq<string>): string {
    if |ss| == 0 then "" else ss[0] + Concat(ss[1..])
  }

  /** Appending one more piece appends its text at the end. */
  lemma {:induction false} ConcatAppend(ss: seq<string>, s: string)
    ensures Concat(ss + [s]) == Concat(ss) + s
  {
    if |ss| == 0 {
      assert ss + [s] == [s];
    } else {
      assert (ss + [s])[1..] == ss[1..] + [s];
      ConcatAppend(ss[1..], s);
    }
  }

  /** `Array.prototype.map` with a total function. */
  function Map<A, B>(f: A -> B, xs: seq<A>): (r: seq<B>)
    ensures |r| == |xs|
    ensures forall i :: 0 <= i < |xs| ==> r[i] == f(xs[i])
  {
    seq(|xs|, i requires 0 <= i < |xs| => f(xs[i]))
  }

  lemma MapCons<A, B>(f: A -> B, x: A, xs: seq<A>)
    ensures Map(f, [x] + xs) == [f(x)] + Map(f, xs)
  {
    var l, r := Map(f, [x] + xs), [f(x)] + Map(f, xs);
    forall i | 0 <= i < |l| ensures l[i] == r[i] {
      if i > 0 {
        assert ([x] + xs)[i] == xs[i - 1];
      }
    }
  }

  // ---------------------------------------------------------------------------
  // String.prototype.trim

  /** JavaScript's WhiteSpace and LineTerminator code points, the set `trim`
      removes. */
  predicate IsSpace(c: char) {
    var n := c as int;
    n == 0x09 || n == 0x0A || n == 0x0B || n == 0x0C || n == 0x0D || n == 0x20
    || n == 0xA0 || n == 0x1680 || (0x2000 <= n <= 0x200A) || n == 0x2028
    || n == 0x2029 || n == 0x202F || n == 0x205F || n == 0x3000 || n == 0xFEFF
  }

  predicate AllSpace(s: string) {
    forall i :: 0 <= i < |s| ==> IsSpace(s[i])
  }

  /** The length of `s[..n]` once trailing white space is dropped. */
  function TrimEndLength(s: string, n: nat): (k: nat)
    requires n <= |s|
    ensures k <= n
    ensures k == 0 || !IsSpace(s[k - 1])
    ensures forall i :: k <= i < n ==> IsSpace(s[i])
  {
    if n == 0 || !IsSpace(s[n - 1]) then n else TrimEndLength(s, n - 1)
  }

  /** The first position at or after `n` that is not white space. */
  function TrimStartIndex(s: string, n: nat): (k: nat)
    requires n <= |s|
    ensures n <= k <= |s|
    ensures k == |s| || !IsSpace(s[k])
    ensures forall i :: n <= i < k ==> IsSpace(s[i])
    decreases |s| - n
  {
    if n == |s| || !IsSpace(s[n]) then n else TrimStartIndex(s, n + 1)
  }

  /** Drops trailing white space: the result is the longest prefix that does
      not end in white space. */
  function TrimEnd(s: string): (r: string)
    ensures |r| <= |s| && r == s[..|r|]
    ensures |r| == 0 || !IsSpace(r[|r| - 1])
    ensures forall i :: |r| <= i < |s| ==> IsSpace(s[i])
  {
    s[..TrimEndLength(s, |s|)]
  }

  /** Drops leading white space: the result is the longest suffix that does
      not start with white space. */
  function TrimStart(s: string): (r: string)
    ensures |r| <= |s| && r == s[|s| - |r|..]
    ensures |r| == 0 || !IsSpace(r[0])
    ensures forall i :: 0 <= i < |s| - |r| ==> IsSpace(s[i])
  {
    s[TrimStartIndex(s, 0)..]
  }

  function Trim(s: string): (r: string)
    ensures |r| <= |s|
    ensures |r| == 0 || (!IsSpace(r[0]) && !IsSpace(r[|r| - 1]))
    ensures r == "" <==> AllSpace(s)
  {
    TrimStart(TrimEnd(s))
  }

  /** `trim` removes white space from the two ends and nothing else: the
      result is a contiguous piece of the input, and everything cut off on
      either side is white space. */
  lemma TrimIsInfix(s: string)
    ensures exists a, b :: 0 <= a <= b <= |s| && Trim(s) == s[a..b] && AllSpace(s[..a]) && AllSpace(s[b..])
  {
    var e := TrimEnd(s);
    var r := TrimStart(e);
    var a, b := |e| - |r|, |e|;
    assert r == s[a..b] && AllSpace(s[..a]) && AllSpace(s[b..]);
  }

  // ---------------------------------------------------------------------------
  // Array.prototype.sort with comparator `(a, b) => key(b) - key(a)`

  predicate SortedDesc<T>(s: seq<T>, key: T -> int) {
    forall i, j :: 0 <= i < j < |s| ==> key(s[i]) >= key(s[j])
  }

  /** Places `x` in front of the first element whose key is not larger, so an
      element inserted earlier stays ahead of later ones with an equal key. */
  function InsertDesc<T(==)>(x: T, s: seq<T>, key: T -> int): (r: seq<T>)
    requires SortedDesc(s, key)
    ensures |r| == |s| + 1
    ensures SortedDesc(r, key)
    ensures multiset(r) == multiset(s) + multiset{x}
    ensures forall y :: y in r ==> y in s || y == x
  {
    if |s| == 0 then [x]
    else if key(s[0]) <= key(x) then [x] + s
    else
      var t := InsertDesc(x, s[1..], key);
      assert s == [s[0]] + s[1..];
      assert forall j :: 0 <= j < |t| ==> key(s[0]) >= key(t[j]) by {
        forall j | 0 <= j < |t| ensures key(s[0]) >= key(t[j]) {
          assert t[j] in t;
          if t[j] != x {
            var k :| 0 <= k < |s[1..]| && s[1..][k] == t[j];
            assert s[k + 1] == t[j];
          }
        }
      }
      PrependSorted(s[0], t, key);
      [s[0]] + t
  }

  lemma PrependSorted<T>(a: T, t: seq<T>, key: T -> int)
    requires SortedDesc(t, key)
    requires forall j :: 0 <= j < |t| ==> key(a) >= key(t[j])
    ensures SortedDesc([a] + t, key)
  {
    var r := [a] + t;
    forall i, j | 0 <= i < j < |r| ensures key(r[i]) >= key(r[j]) {
      assert r[j] == t[j - 1];
      if i > 0 {
        assert r[i] == t[i - 1];
      }
    }
  }

  /** Sorts by non-increasing key; the result is a permutation of the input. */
  function SortDesc<T(==)>(s: seq<T>, key: T -> int): (r: seq<T>)
    ensures |r| == |s|
    ensures multiset(r) == multiset(s)
    ensures SortedDesc(r, key)
  {
    if |s| == 0 then []
    else
      assert s == [s[0]] + s[1..];
      InsertDesc(s[0], SortDesc(s[1..], key), key)
  }
}

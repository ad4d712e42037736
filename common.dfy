/** Helpers shared by every module: an optional value, C strings and
    bounded copies into fixed-size char buffers, and fixed-width integers. */
module Common {

  datatype Option<T> = None | Some(value: T)

  /** 2^32: the range of a C `uint32_t` (sequence numbers, packed colours). */
  const U32: nat := 0x1_0000_0000

  type uint8 = x: int | 0 <= x < 256
  type uint32 = x: int | 0 <= x < U32

  function Min(a: int, b: int): int { if a <= b then a else b }

  /** A C string's characters never include the terminating NUL. */
  predicate NoNul(s: seq<char>) {
    forall i :: 0 <= i < |s| ==> s[i] != '\0'
  }

  /** The C string stored in a char buffer: every character before the first NUL
      (the whole buffer when it holds none). */
  function CStr(buf: seq<char>): (r: seq<char>)
    ensures NoNul(r) && |r| <= |buf| && r == buf[..|r|]
    ensures |r| < |buf| ==> buf[|r|] == '\0'
    ensures NoNul(buf) ==> r == buf
  {
    if buf == [] || buf[0] == '\0' then []
    else [buf[0]] + CStr(buf[1..])
  }

  /** A buffer holding `t` and then a NUL holds the C string `t`. */
  lemma {:induction false} CStrOfTerminated(buf: seq<char>, t: seq<char>)
    requires NoNul(t) && |t| < |buf| && buf[..|t|] == t && buf[|t|] == '\0'
    ensures CStr(buf) == t
  {
    if t != [] {
      assert buf[0] == t[0];
      CStrOfTerminated(buf[1..], t[1..]);
    }
  }

  /** A NUL at `k` ends the C string no later than `k`. */
  lemma {:induction false} CStrCut(buf: seq<char>, k: nat)
    requires k < |buf| && buf[k] == '\0'
    ensures CStr(buf) == CStr(buf[..k])
  {
    if k > 0 && buf[0] != '\0' {
      assert buf[1..][..k - 1] == buf[..k][1..];
      CStrCut(buf[1..], k - 1);
    }
  }

  /** What survives of `s` in a buffer with room for `cap` characters before the
      terminator, as `snprintf(out, cap + 1, "%s", s)` leaves it. */
  function Fit(s: seq<char>, cap: nat): (r: seq<char>)
    ensures |r| == Min(|s|, cap) && r == s[..|r|]
  {
    if |s| <= cap then s else s[..cap]
  }

  /** Room for `cap` characters already holding `a`: appending `d` keeps as
      much of `d` as still fits. */
  lemma FitAppend(a: seq<char>, d: seq<char>, cap: nat)
    requires |a| <= cap
    ensures Fit(a + d, cap) == a + d[..Min(|d|, cap - |a|)]
  {
    var n := Min(|d|, cap - |a|);
    assert (a + d)[..|a| + n] == a + d[..n];
  }

  /** Cutting to `cap` before appending more changes nothing once cut again. */
  lemma FitFit(a: seq<char>, b: seq<char>, cap: nat)
    ensures Fit(Fit(a, cap) + b, cap) == Fit(a + b, cap)
  {
    if |a| > cap {
      assert (a[..cap] + b)[..cap] == a[..cap];
      assert (a + b)[..cap] == a[..cap];
    }
  }

  /** Both halves free of NUL: so is the whole. */
  lemma NoNulAppend(a: seq<char>, b: seq<char>)
    requires NoNul(a) && NoNul(b)
    ensures NoNul(a + b)
  {
    forall i | 0 <= i < |a + b|
      ensures (a + b)[i] != '\0'
    {
      if i >= |a| {
        assert (a + b)[i] == b[i - |a|];
      }
    }
  }

  /** `snprintf(out, size, "%s", s)`: nothing is written when `size` is 0,
      otherwise at most `size - 1` characters of the C string `s`. */
  function Snprintf(s: seq<char>, size: nat): (r: seq<char>)
    ensures NoNul(r)
    ensures size > 0 ==> |r| < size
    ensures NoNul(s) && |s| < size ==> r == s
  {
    if size == 0 then [] else Fit(CStr(s), size - 1)
  }
}

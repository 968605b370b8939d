/** Python string operations the pipeline relies on: str.strip, str.lower,
    str.endswith, the "+= t + ' '" accumulation and " ".join. */
module Text {

  /** Python's str.isspace() on the characters below U+0100: the ASCII
      whitespace block 9..13, the separators 28..31, space, NEL and NBSP. */
  predicate IsSpace(c: char) {
    var n := c as int;
    (9 <= n <= 13) || (28 <= n <= 32) || n == 0x85 || n == 0xA0
  }

  predicate AllSpace(s: string) {
    forall k :: 0 <= k < |s| ==> IsSpace(s[k])
  }

  /** The first index at or after i that holds a non-space character, or |s|. */
  function Lead(s: string, i: nat): (r: nat)
    requires i <= |s|
    ensures i <= r <= |s|
    ensures forall k :: i <= k < r ==> IsSpace(s[k])
    ensures r < |s| ==> !IsSpace(s[r])
    decreases |s| - i
  {
    if i == |s| || !IsSpace(s[i]) then i else Lead(s, i + 1)
  }

  /** The end of the last non-space character in s[lo..j], or lo. */
  function Trail(s: string, lo: nat, j: nat): (r: nat)
    requires lo <= j <= |s|
    ensures lo <= r <= j
    ensures forall k :: r <= k < j ==> IsSpace(s[k])
    ensures r > lo ==> !IsSpace(s[r - 1])
  {
    if j == lo || !IsSpace(s[j - 1]) then j else Trail(s, lo, j - 1)
  }

  /** Where Strip(s) starts inside s. */
  function StripStart(s: string): nat
  {
    Lead(s, 0)
  }

  /** str.strip(): the infix of s left after removing whitespace at both
      ends; everything outside that infix is whitespace. */
  function Strip(s: string): (r: string)
    ensures StripStart(s) + |r| <= |s| && r == s[StripStart(s)..StripStart(s) + |r|]
    ensures forall k :: 0 <= k < StripStart(s) ==> IsSpace(s[k])
    ensures forall k :: StripStart(s) + |r| <= k < |s| ==> IsSpace(s[k])
    ensures r == [] || (!IsSpace(r[0]) && !IsSpace(r[|r| - 1]))
    ensures r == [] <==> AllSpace(s)
  {
    var a := Lead(s, 0);
    var b := Trail(s, a, |s|);
    s[a..b]
  }

  /** Strip leaves a text without whitespace at its ends unchanged. */
  lemma StripTrimmed(s: string)
    requires s == [] || (!IsSpace(s[0]) && !IsSpace(s[|s| - 1]))
    ensures Strip(s) == s
  {
  }

  /** Stripping twice is stripping once. */
  lemma StripIdempotent(s: string)
    ensures Strip(Strip(s)) == Strip(s)
  {
    StripTrimmed(Strip(s));
  }

  /** str.lower() on ASCII letters. */
  function LowerChar(c: char): (r: char)
    ensures ('A' <= c <= 'Z') ==> r as int == c as int + 32
    ensures !('A' <= c <= 'Z') ==> r == c
  {
    if 'A' <= c <= 'Z' then (c as int + 32) as char else c
  }

  /** str.lower() restricted to ASCII, character by character. */
  function Lower(s: string): (r: string)
    ensures |r| == |s|
    ensures forall k :: 0 <= k < |s| ==> r[k] == LowerChar(s[k])
  {
    if s == [] then [] else [LowerChar(s[0])] + Lower(s[1..])
  }

  predicate EndsWith(s: string, suffix: string) {
    |suffix| <= |s| && s[|s| - |suffix|..] == suffix
  }

  /** The buffer that "for t in ts: buf += t + term" builds from an empty string. */
  function Terminated(ts: seq<string>, term: string): string
  {
    if ts == [] then "" else Terminated(ts[..|ts| - 1], term) + ts[|ts| - 1] + term
  }

  /** " ".join(ts). */
  function JoinWith(ts: seq<string>, sep: string): string
  {
    if |ts| == 0 then ""
    else if |ts| == 1 then ts[0]
    else JoinWith(ts[..|ts| - 1], sep) + sep + ts[|ts| - 1]
  }

  /** Appending texts one after another appends their buffers: the buffer
      keeps the texts in the order they were appended. */
  lemma {:induction false} TerminatedAppend(a: seq<string>, b: seq<string>, term: string)
    ensures Terminated(a + b, term) == Terminated(a, term) + Terminated(b, term)
    decreases |b|
  {
    if b != [] {
      var b' := b[..|b| - 1];
      assert (a + b)[..|a + b| - 1] == a + b';
      TerminatedAppend(a, b', term);
    } else {
      assert a + b == a;
    }
  }

  /** The accumulated buffer is the texts joined by the terminator, plus
      one trailing terminator. */
  lemma {:induction false} TerminatedIsJoinWith(ts: seq<string>, term: string)
    requires ts != []
    ensures Terminated(ts, term) == JoinWith(ts, term) + term
  {
    if |ts| > 1 {
      TerminatedIsJoinWith(ts[..|ts| - 1], term);
    } else {
      assert ts[..0] == [];
    }
  }

  /** " ".join of a non-empty list starts with its first element. */
  lemma {:induction false} JoinWithStartsWithFirst(ts: seq<string>, sep: string)
    requires ts != []
    ensures |ts[0]| <= |JoinWith(ts, sep)| && JoinWith(ts, sep)[..|ts[0]|] == ts[0]
  {
    if |ts| > 1 {
      JoinWithStartsWithFirst(ts[..|ts| - 1], sep);
    }
  }

  /** Stripping one trailing space off a text whose ends are not whitespace
      gives the text back. */
  lemma StripTrailingSpace(x: string, c: char)
    requires x != [] && !IsSpace(x[0]) && !IsSpace(x[|x| - 1]) && IsSpace(c)
    ensures Strip(x + [c]) == x
  {
    var y := x + [c];
    assert y[0] == x[0] && y[|x| - 1] == x[|x| - 1];
  }

  /** A whitespace character appended to any text disappears in the strip. */
  lemma StripDropsTrailingSpace(x: string, c: char)
    requires IsSpace(c)
    ensures Strip(x + [c]) == Strip(x)
  {
    var y := x + [c];
    if AllSpace(x) {
      assert AllSpace(y) by {
        forall k | 0 <= k < |y|
          ensures IsSpace(y[k])
        {
          if k < |x| {
            assert y[k] == x[k];
          }
        }
      }
    } else {
      var a := Lead(x, 0);
      LeadExtend(x, [c], 0);
      assert Lead(y, 0) == a;
      assert Trail(y, a, |y|) == Trail(y, a, |x|);
      TrailExtend(x, [c], a, |x|);
      assert y[a..Trail(x, a, |x|)] == x[a..Trail(x, a, |x|)];
    }
  }

  /** Text appended after a non-space character does not move Lead. */
  lemma {:induction false} LeadExtend(s: string, t: string, i: nat)
    requires i <= |s| && Lead(s, i) < |s|
    ensures Lead(s + t, i) == Lead(s, i)
    decreases |s| - i
  {
    assert (s + t)[i] == s[i];
    if IsSpace(s[i]) {
      LeadExtend(s, t, i + 1);
    }
  }

  /** Trail within s does not look past s. */
  lemma {:induction false} TrailExtend(s: string, t: string, lo: nat, j: nat)
    requires lo <= j <= |s|
    ensures Trail(s + t, lo, j) == Trail(s, lo, j)
  {
    if j > lo {
      assert (s + t)[j - 1] == s[j - 1];
      if IsSpace(s[j - 1]) {
        TrailExtend(s, t, lo, j - 1);
      }
    }
  }

  /** Stripping the accumulated buffer is stripping the texts joined by the
      terminator, for any texts, when the terminator is one whitespace
      character. */
  lemma StripTerminatedIsStripJoin(ts: seq<string>, c: char)
    requires IsSpace(c)
    ensures Strip(Terminated(ts, [c])) == Strip(JoinWith(ts, [c]))
  {
    if ts != [] {
      TerminatedIsJoinWith(ts, [c]);
      StripDropsTrailingSpace(JoinWith(ts, [c]), c);
    }
  }

  /** Stripping the accumulated buffer gives " ".join of the texts whenever
      the first text does not start and the last does not end with whitespace. */
  lemma StripTerminated(ts: seq<string>)
    requires ts != [] && ts[0] != [] && ts[|ts| - 1] != []
    requires !IsSpace(ts[0][0]) && !IsSpace(ts[|ts| - 1][|ts[|ts| - 1]| - 1])
    ensures Strip(Terminated(ts, " ")) == JoinWith(ts, " ")
  {
    TerminatedIsJoinWith(ts, " ");
    JoinWithStartsWithFirst(ts, " ");
    var x := JoinWith(ts, " ");
    assert x[0] == ts[0][0];
    assert x[|x| - 1] == ts[|ts| - 1][|ts[|ts| - 1]| - 1];
    StripTrailingSpace(x, ' ');
  }

  /** str(n) for a natural number: its decimal digits, no leading zeros. */
  function NatToString(n: nat): (r: string)
    ensures |r| > 0
    ensures forall k :: 0 <= k < |r| ==> '0' <= r[k] <= '9'
    ensures (|r| == 1) <==> n < 10
  {
    if n < 10 then [Digit(n)] else NatToString(n / 10) + [Digit(n % 10)]
  }

  function Digit(d: nat): (c: char)
    requires d < 10
    ensures '0' <= c <= '9'
  {
    ('0' as int + d) as char
  }

  /** Different numbers print differently, so the per-index names built
      from them never collide. */
  lemma {:induction false} NatToStringInjective(n: nat, m: nat)
    requires NatToString(n) == NatToString(m)
    ensures n == m
  {
    var s := NatToString(n);
    if n >= 10 && m >= 10 {
      assert NatToString(n / 10) == s[..|s| - 1] == NatToString(m / 10);
      NatToStringInjective(n / 10, m / 10);
      assert Digit(n % 10) == s[|s| - 1] == Digit(m % 10);
    }
  }
}

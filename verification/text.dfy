/**
 * String helpers with the meaning of the JavaScript string methods the
 * source relies on: `startsWith`, `endsWith`, `includes`, `split` on one
 * character and `Array.prototype.join`.
 */
module Text {

  predicate StartsWith(s: string, prefix: string) {
    |prefix| <= |s| && s[..|prefix|] == prefix
  }

  predicate EndsWith(s: string, suffix: string) {
    |suffix| <= |s| && s[|s| - |suffix|..] == suffix
  }

  /** ASCII lower-casing: the case mapping URL parsing applies to a host name. */
  function LowerAscii(s: string): (r: string)
    ensures |r| == |s|
    ensures forall i :: 0 <= i < |s| ==> r[i] == if 'A' <= s[i] <= 'Z' then (s[i] as int + 32) as char else s[i]
  {
    seq(|s|, i requires 0 <= i < |s| => if 'A' <= s[i] <= 'Z' then (s[i] as int + 32) as char else s[i])
  }

  /** `s.includes(sub)`: `sub` occurs somewhere in `s`. */
  predicate Contains(s: string, sub: string)
    decreases |s|
  {
    |sub| <= |s| && (s[..|sub|] == sub || (|s| > 0 && Contains(s[1..], sub)))
  }

  lemma ContainsSuffix(s: string, suffix: string)
    requires EndsWith(s, suffix)
    ensures Contains(s, suffix)
    decreases |s|
  {
    if |s| > |suffix| {
      assert s[1..][|s[1..]| - |suffix|..] == s[|s| - |suffix|..];
      ContainsSuffix(s[1..], suffix);
    }
  }

  /** Index of the first `c` in `s`, or `|s|` when there is none. */
  function IndexOf(s: string, c: char): (i: nat)
    ensures i <= |s|
    ensures i < |s| ==> s[i] == c
    ensures forall j :: 0 <= j < i ==> s[j] != c
  {
    if |s| == 0 then 0
    else if s[0] == c then 0
    else 1 + IndexOf(s[1..], c)
  }

  /** The text before the first `c` (all of `s` when there is none). */
  function Before(s: string, c: char): string {
    s[..IndexOf(s, c)]
  }

  /** The text after the first `c` (empty when there is none). */
  function AfterFirst(s: string, c: char): string {
    var i := IndexOf(s, c);
    if i < |s| then s[i + 1..] else ""
  }

  lemma IndexOfConcat(p: string, q: string, c: char)
    ensures c in p ==> IndexOf(p + q, c) == IndexOf(p, c)
    ensures c !in p ==> IndexOf(p + q, c) == |p| + IndexOf(q, c)
  {
    var i := IndexOf(p + q, c);
    if c in p {
      var k :| 0 <= k < |p| && p[k] == c;
      assert (p + q)[k] == c;
      assert i <= k;
      assert p[i] == c;
      assert forall j :: 0 <= j < i ==> p[j] == (p + q)[j];
    } else {
      assert forall j :: 0 <= j < IndexOf(q, c) ==> (p + q)[|p| + j] == q[j];
      if IndexOf(q, c) < |q| {
        assert (p + q)[|p| + IndexOf(q, c)] == c;
      } else {
        assert c !in q;
        assert forall j :: 0 <= j < |p + q| ==> (p + q)[j] != c;
      }
    }
  }

  /** `s.split(c)` for a one-character separator: the pieces between occurrences of `c`. */
  function Split(s: string, c: char): (parts: seq<string>)
    ensures |parts| >= 1
    decreases |s|
  {
    if |s| == 0 then [""]
    else if s[0] == c then [""] + Split(s[1..], c)
    else
      var rest := Split(s[1..], c);
      [[s[0]] + rest[0]] + rest[1..]
  }

  /** `parts.join(sep)`. */
  function Join(parts: seq<string>, sep: string): string
    decreases |parts|
  {
    if |parts| == 0 then ""
    else if |parts| == 1 then parts[0]
    else parts[0] + sep + Join(parts[1..], sep)
  }

  lemma JoinCons(head: string, tail: seq<string>, sep: string)
    requires |tail| >= 1
    ensures Join([head] + tail, sep) == head + sep + Join(tail, sep)
  {
    assert ([head] + tail)[1..] == tail;
  }

  /** Splitting on `c` and joining with `c` gives back the original text. */
  lemma {:induction false} JoinSplit(s: string, c: char)
    ensures Join(Split(s, c), [c]) == s
    decreases |s|
  {
    if |s| == 0 {
    } else if s[0] == c {
      JoinSplit(s[1..], c);
      JoinCons("", Split(s[1..], c), [c]);
      assert s == [c] + s[1..];
    } else {
      var rest := Split(s[1..], c);
      JoinSplit(s[1..], c);
      if |rest| == 1 {
        assert Split(s, c) == [[s[0]] + rest[0]];
        assert s == [s[0]] + s[1..];
      } else {
        JoinCons([s[0]] + rest[0], rest[1..], [c]);
        JoinCons(rest[0], rest[1..], [c]);
        assert [rest[0]] + rest[1..] == rest;
        assert s == [s[0]] + s[1..];
      }
    }
  }

  /** The first piece of a split is the text before the first separator. */
  lemma {:induction false} SplitFirst(s: string, c: char)
    ensures Split(s, c)[0] == Before(s, c)
    decreases |s|
  {
    if |s| > 0 && s[0] != c {
      SplitFirst(s[1..], c);
      assert Before(s, c) == [s[0]] + Before(s[1..], c);
    }
  }

  /** Dropping the first piece of a split and re-joining yields the text after the first separator. */
  lemma {:induction false} JoinSplitTail(s: string, c: char)
    ensures Join(Split(s, c)[1..], [c]) == AfterFirst(s, c)
    decreases |s|
  {
    if |s| == 0 {
    } else if s[0] == c {
      assert Split(s, c)[1..] == Split(s[1..], c);
      JoinSplit(s[1..], c);
    } else {
      var rest := Split(s[1..], c);
      assert Split(s, c)[1..] == rest[1..];
      JoinSplitTail(s[1..], c);
      assert AfterFirst(s, c) == AfterFirst(s[1..], c);
    }
  }

  /** A match found inside a suffix of `s` is a match in `s`. */
  lemma {:induction false} ContainsShift(s: string, k: nat, t: string)
    requires k <= |s| && Contains(s[k..], t)
    ensures Contains(s, t)
    decreases k
  {
    if k > 0 {
      assert s[1..][k - 1..] == s[k..];
      ContainsShift(s[1..], k - 1, t);
    } else {
      assert s[k..] == s;
    }
  }

  /** Whatever contains `sub` contains every suffix of `sub`. */
  lemma {:induction false} ContainsSuffixOf(s: string, sub: string, k: nat)
    requires k <= |sub| && Contains(s, sub)
    ensures Contains(s, sub[k..])
    decreases |s|
  {
    if s[..|sub|] == sub {
      assert s[k..][..|sub| - k] == sub[k..];
      ContainsShift(s, k, sub[k..]);
    } else {
      ContainsSuffixOf(s[1..], sub, k);
      ContainsShift(s, 1, sub[k..]);
    }
  }

  /** A text without the separator splits into itself alone. */
  lemma {:induction false} SplitNone(s: string, c: char)
    requires c !in s
    ensures Split(s, c) == [s]
    decreases |s|
  {
    if |s| > 0 {
      SplitNone(s[1..], c);
      assert [s[0]] + s[1..] == s;
    }
  }

  /** Splitting at the first separator: the text before it, then the split of the rest. */
  lemma {:induction false} SplitAt(p: string, c: char, q: string)
    requires c !in p
    ensures Split(p + [c] + q, c) == [p] + Split(q, c)
    decreases |p|
  {
    var s := p + [c] + q;
    if |p| == 0 {
      assert s[1..] == q;
    } else {
      assert s[1..] == p[1..] + [c] + q;
      SplitAt(p[1..], c, q);
      assert [p[0]] + p[1..] == p;
    }
  }

  /** No piece of a split holds the separator, and the second piece follows a separator in the text. */
  lemma {:induction false} SplitPieces(s: string, c: char)
    ensures forall i :: 0 <= i < |Split(s, c)| ==> c !in Split(s, c)[i]
    ensures |Split(s, c)| >= 2 ==> Contains(s, [c] + Split(s, c)[1])
    decreases |s|
  {
    if |s| > 0 {
      var rest := Split(s[1..], c);
      SplitPieces(s[1..], c);
      if s[0] == c {
        SplitFirst(s[1..], c);
        var b := Before(s[1..], c);
        assert s[..|b| + 1] == [c] + b;
      } else {
        assert Split(s, c) == [[s[0]] + rest[0]] + rest[1..];
        if |rest| >= 2 {
          ContainsShift(s, 1, [c] + rest[1]);
        }
      }
    }
  }
}

/**
 * The pre-pass that deletes block comments before the text is split into
 * lines: scanning left to right, every opener "/" "*" that has a closer
 * "*" "/" somewhere after it is removed together with everything up to and
 * including the FIRST such closer (a lazy match), and scanning resumes after
 * it. An opener with no closer after it is kept as ordinary text.
 */
module BlockComments {
  import opened Wrappers

  predicate OpensAt(s: string, k: int) {
    0 <= k && k + 1 < |s| && s[k] == '/' && s[k + 1] == '*'
  }

  predicate ClosesAt(s: string, k: int) {
    0 <= k && k + 1 < |s| && s[k] == '*' && s[k + 1] == '/'
  }

  /** The first closer at or after `from`: where the lazy match stops. */
  function FindCloser(s: string, from: nat): (r: Option<nat>)
    ensures r.Some? ==> from <= r.value && ClosesAt(s, r.value)
    ensures r.Some? ==> forall k :: from <= k < r.value ==> !ClosesAt(s, k)
    ensures r.None? ==> forall k :: from <= k ==> !ClosesAt(s, k)
    decreases |s| - from
  {
    if from + 1 >= |s| then None
    else if ClosesAt(s, from) then Some(from)
    else FindCloser(s, from + 1)
  }

  /** The text with its block comments removed. */
  function StripComments(s: string): (r: string)
    ensures |r| <= |s|
    decreases |s|
  {
    if |s| < 2 then s
    else if OpensAt(s, 0) && FindCloser(s, 2).Some? then StripComments(s[FindCloser(s, 2).value + 2..])
    else [s[0]] + StripComments(s[1..])
  }

  /** Text in which no comment is ever opened comes through unchanged. */
  lemma {:induction false} NoOpenerUnchanged(s: string)
    requires forall k :: !OpensAt(s, k)
    ensures StripComments(s) == s
  {
    if |s| >= 2 {
      assert !OpensAt(s, 0);
      forall k ensures !OpensAt(s[1..], k) {
        assert !OpensAt(s, k + 1);
      }
      NoOpenerUnchanged(s[1..]);
    }
  }

  /** An unterminated comment is not a comment: text with no closer comes through unchanged. */
  lemma {:induction false} NoCloserUnchanged(s: string)
    requires forall k :: !ClosesAt(s, k)
    ensures StripComments(s) == s
  {
    if |s| >= 2 {
      forall k ensures !ClosesAt(s[1..], k) {
        assert !ClosesAt(s, k + 1);
      }
      NoCloserUnchanged(s[1..]);
    }
  }

  /**
   * Text in which no comment opens is kept as it is, and the scan goes on
   * with what follows: `a` may hold `/` (a `//` line, a URL) as long as no
   * `/` in it is followed by `*`, counting the first character of `b`.
   */
  lemma {:induction false} OpenerFreePrefixKept(a: string, b: string)
    requires forall k :: 0 <= k < |a| ==> !OpensAt(a + b, k)
    ensures StripComments(a + b) == a + StripComments(b)
    decreases |a|
  {
    var s := a + b;
    if a == [] {
      assert s == b;
    } else if |s| < 2 {
      assert b == [] && s == a;
    } else {
      assert !OpensAt(s, 0);
      assert s[1..] == a[1..] + b;
      forall k | 0 <= k < |a[1..]| ensures !OpensAt(a[1..] + b, k) {
        assert !OpensAt(s, k + 1);
      }
      OpenerFreePrefixKept(a[1..], b);
      assert StripComments(s) == [a[0]] + (a[1..] + StripComments(b));
    }
  }

  /** A comment whose body `c` holds no closer, after text `a` that opens no
      comment, disappears entirely, and scanning resumes right after it. */
  lemma CommentRemoved(a: string, c: string, t: string)
    requires forall k :: !OpensAt(a, k)
    requires forall k :: !ClosesAt(c, k)
    ensures StripComments(a + "/*" + c + "*/" + t) == a + StripComments(t)
  {
    var s := "/*" + c + "*/" + t;
    var j := |c| + 2;
    assert ClosesAt(s, j);
    forall k | 2 <= k < j ensures !ClosesAt(s, k) {
      if k + 1 < j {
        assert s[k] == c[k - 2] && s[k + 1] == c[k - 1];
        assert !ClosesAt(c, k - 2);
      } else {
        assert s[k + 1] == '*';
      }
    }
    assert FindCloser(s, 2) == Some(j);
    assert s[j + 2..] == t;
    assert a + "/*" + c + "*/" + t == a + s;
    forall k | 0 <= k < |a| ensures !OpensAt(a + s, k) {
      if k + 1 < |a| {
        assert !OpensAt(a, k);
      } else {
        assert (a + s)[k + 1] == '/';
      }
    }
    OpenerFreePrefixKept(a, s);
  }

  /** An opener with no closer after it is kept, and so is everything after
      it; this holds when the opener's own `*` starts a `*` `/` pair, as in
      "/" "*" "/" with nothing closing it later. */
  lemma UnclosedOpenerKept(s: string)
    requires OpensAt(s, 0) && FindCloser(s, 2).None?
    ensures StripComments(s) == s
  {
    var t := s[2..];
    forall k | 0 <= k ensures !ClosesAt(t, k) {
      assert !ClosesAt(s, k + 2);
    }
    NoCloserUnchanged(t);
    NonOpenerKept(s[1..]);
    assert s[1..][1..] == t;
  }

  /** A text starting with `*` keeps it. */
  lemma NonOpenerKept(s: string)
    requires s != [] && s[0] == '*'
    ensures StripComments(s) == [s[0]] + StripComments(s[1..])
  {
    assert !OpensAt(s, 0);
  }
}

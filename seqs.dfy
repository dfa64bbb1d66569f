/** Sequence operations the components build from `Array.prototype` methods:
    `filter(y => y !== x)`, `[...new Set(s)]` and `join(sep)`. */
module Seqs {

  /** No element occurs twice. */
  ghost predicate NoDup(s: seq<string>) {
    forall i, j :: 0 <= i < j < |s| ==> s[i] != s[j]
  }

  lemma NoDupAppend(s: seq<string>, x: string)
    requires NoDup(s) && x !in s
    ensures NoDup(s + [x])
  {
  }

  lemma NoDupCons(x: string, s: seq<string>)
    requires NoDup(s) && x !in s
    ensures NoDup([x] + s)
  {
    forall i, j | 0 <= i < j < |[x] + s| ensures ([x] + s)[i] != ([x] + s)[j] {
      if i > 0 {
        assert ([x] + s)[i] == s[i - 1] && ([x] + s)[j] == s[j - 1];
      } else {
        assert ([x] + s)[j] == s[j - 1];
      }
    }
  }

  /** `s.filter(y => y !== x)`: every occurrence of `x` goes, the others stay
      in their order. */
  function RemoveAll(s: seq<string>, x: string): (r: seq<string>)
    ensures forall y :: y in r <==> y in s && y != x
    ensures multiset(r) == multiset(s)[x := 0]
    ensures x !in s ==> r == s
  {
    if s == [] then []
    else
      var rest := RemoveAll(s[1..], x);
      assert s == [s[0]] + s[1..];
      if s[0] == x then rest else [s[0]] + rest
  }

  /** Filtering keeps a duplicate-free sequence duplicate-free. */
  lemma {:induction false} RemoveAllNoDup(s: seq<string>, x: string)
    requires NoDup(s)
    ensures NoDup(RemoveAll(s, x))
  {
    if s != [] {
      assert NoDup(s[1..]) by {
        forall i, j | 0 <= i < j < |s[1..]| ensures s[1..][i] != s[1..][j] {
          assert s[1..][i] == s[i + 1] && s[1..][j] == s[j + 1];
        }
      }
      RemoveAllNoDup(s[1..], x);
      if s[0] != x {
        assert s[0] !in s[1..] by {
          forall k | 0 <= k < |s[1..]| ensures s[1..][k] != s[0] { assert s[1..][k] == s[k + 1]; }
        }
        NoDupCons(s[0], RemoveAll(s[1..], x));
      }
    }
  }

  /** Filtering distributes over concatenation, so the result keeps the
      relative order of the surviving elements. */
  lemma {:induction false} RemoveAllAppend(a: seq<string>, b: seq<string>, x: string)
    ensures RemoveAll(a + b, x) == RemoveAll(a, x) + RemoveAll(b, x)
  {
    if a == [] {
      assert a + b == b;
    } else {
      assert (a + b)[1..] == a[1..] + b;
      RemoveAllAppend(a[1..], b, x);
    }
  }

  /** `[...new Set(s)]`: the first occurrence of every element, in first-occurrence order. */
  function Dedup(s: seq<string>): (r: seq<string>)
    ensures NoDup(r)
    ensures forall y :: y in r <==> y in s
    ensures |r| <= |s|
  {
    if s == [] then []
    else
      var d := Dedup(s[..|s| - 1]);
      var last := s[|s| - 1];
      assert forall y :: y in s <==> y in s[..|s| - 1] || y == last by {
        assert s == s[..|s| - 1] + [last];
      }
      if last in d then d
      else
        NoDupAppend(d, last);
        d + [last]
  }

  /** Deduplicating a longer sequence only ever appends to the result for its prefix. */
  lemma {:induction false} DedupPrefix(a: seq<string>, b: seq<string>)
    ensures |Dedup(a)| <= |Dedup(a + b)|
    ensures Dedup(a + b)[..|Dedup(a)|] == Dedup(a)
    decreases |b|
  {
    if b == [] {
      assert a + b == a;
    } else {
      var b' := b[..|b| - 1];
      assert (a + b)[..|a + b| - 1] == a + b';
      DedupPrefix(a, b');
    }
  }

  /** Appending elements that are already there adds nothing to the
      deduplication of a duplicate-free sequence. */
  lemma {:induction false} DedupAppendPresent(a: seq<string>, b: seq<string>)
    requires NoDup(a) && forall y :: y in b ==> y in a
    ensures Dedup(a + b) == a
    decreases |b|
  {
    if b == [] {
      assert a + b == a;
      DedupOfNoDup(a);
    } else {
      var b' := b[..|b| - 1];
      assert (a + b)[..|a + b| - 1] == a + b';
      assert forall y :: y in b' ==> y in b;
      DedupAppendPresent(a, b');
      assert (a + b)[|a + b| - 1] == b[|b| - 1];
    }
  }

  /** A duplicate-free sequence is its own deduplication. */
  lemma {:induction false} DedupOfNoDup(s: seq<string>)
    requires NoDup(s)
    ensures Dedup(s) == s
  {
    if s != [] {
      var init := s[..|s| - 1];
      assert NoDup(init);
      DedupOfNoDup(init);
      assert s[|s| - 1] !in init by {
        forall k | 0 <= k < |init| ensures init[k] != s[|s| - 1] { assert init[k] == s[k]; }
      }
      assert s == init + [s[|s| - 1]];
    }
  }

  /** `xs.join([sep])`. */
  function Join(xs: seq<string>, sep: char): (r: string)
    ensures |r| >= |xs| - 1
    ensures |xs| >= 1 ==> xs[0] <= r
    ensures |xs| >= 1 ==> |xs[|xs| - 1]| <= |r| && r[|r| - |xs[|xs| - 1]|..] == xs[|xs| - 1]
  {
    if |xs| == 0 then ""
    else if |xs| == 1 then xs[0]
    else Join(xs[..|xs| - 1], sep) + [sep] + xs[|xs| - 1]
  }

  /** The joined string is empty exactly for `[]` and `['']`. */
  lemma JoinIsEmpty(xs: seq<string>, sep: char)
    ensures Join(xs, sep) == "" <==> xs == [] || xs == [""]
  {
    if |xs| == 1 {
      assert xs == [xs[0]];
    }
  }

  /** `s.split(sep)` as a server reads a comma-separated parameter. */
  function Split(s: string, sep: char): (r: seq<string>)
    ensures |r| >= 1
  {
    if s == [] then [""]
    else
      var r := Split(s[..|s| - 1], sep);
      var c := s[|s| - 1];
      if c == sep then r + [""] else r[..|r| - 1] + [r[|r| - 1] + [c]]
  }

  /** Appending text without a separator extends the last field only. */
  lemma {:induction false} SplitAppendField(u: string, t: string, sep: char)
    requires sep !in t
    ensures |Split(u + t, sep)| == |Split(u, sep)|
    ensures Split(u + t, sep)[..|Split(u, sep)| - 1] == Split(u, sep)[..|Split(u, sep)| - 1]
    ensures Split(u + t, sep)[|Split(u, sep)| - 1] == Split(u, sep)[|Split(u, sep)| - 1] + t
    decreases |t|
  {
    if t == [] {
      assert u + t == u;
      assert Split(u, sep)[|Split(u, sep)| - 1] + t == Split(u, sep)[|Split(u, sep)| - 1];
    } else {
      var c, rest := t[0], t[1..];
      assert c in t;
      assert sep !in rest by { assert forall k :: 0 <= k < |rest| ==> rest[k] == t[k + 1]; }
      SplitAppendField(u + [c], rest, sep);
      SplitAppendStep(u, c, rest, sep);
      assert [c] + rest == t;
    }
  }

  /** The step of the induction above: once the appended text after `c` is
      known to extend the last field of `u + [c]`, the whole of `[c] + rest`
      extends the last field of `u`. */
  lemma SplitAppendStep(u: string, c: char, rest: string, sep: char)
    requires c != sep
    requires |Split(u + [c] + rest, sep)| == |Split(u + [c], sep)|
    requires Split(u + [c] + rest, sep)[..|Split(u + [c], sep)| - 1] == Split(u + [c], sep)[..|Split(u + [c], sep)| - 1]
    requires Split(u + [c] + rest, sep)[|Split(u + [c], sep)| - 1] == Split(u + [c], sep)[|Split(u + [c], sep)| - 1] + rest
    ensures |Split(u + ([c] + rest), sep)| == |Split(u, sep)|
    ensures Split(u + ([c] + rest), sep)[..|Split(u, sep)| - 1] == Split(u, sep)[..|Split(u, sep)| - 1]
    ensures Split(u + ([c] + rest), sep)[|Split(u, sep)| - 1] == Split(u, sep)[|Split(u, sep)| - 1] + ([c] + rest)
  {
    SplitAppendChar(u, c, sep);
    assert u + [c] + rest == u + ([c] + rest);
    var r, r1 := Split(u, sep), Split(u + [c], sep);
    var n := |r|;
    assert r1[n - 1] == r[n - 1] + [c];
    assert (r[n - 1] + [c]) + rest == r[n - 1] + ([c] + rest);
  }

  /** Appending one ordinary character extends the last field by it. */
  lemma SplitAppendChar(u: string, c: char, sep: char)
    requires c != sep
    ensures var r := Split(u, sep);
            |Split(u + [c], sep)| == |r| &&
            Split(u + [c], sep)[..|r| - 1] == r[..|r| - 1] &&
            Split(u + [c], sep)[|r| - 1] == r[|r| - 1] + [c]
  {
    var s := u + [c];
    assert s[..|s| - 1] == u && s[|s| - 1] == c;
    SplitLastPlain(s, sep);
  }

  /** Unfolding `Split` once, for a string that ends in an ordinary character. */
  lemma SplitLastPlain(s: string, sep: char)
    requires s != [] && s[|s| - 1] != sep
    ensures var r := Split(s[..|s| - 1], sep);
            |Split(s, sep)| == |r| &&
            Split(s, sep)[..|r| - 1] == r[..|r| - 1] &&
            Split(s, sep)[|r| - 1] == r[|r| - 1] + [s[|s| - 1]]
  {
  }

  /** Splitting the joined string gives the list back, provided no element
      contains the separator. */
  lemma {:induction false} SplitJoin(xs: seq<string>, sep: char)
    requires |xs| >= 1
    requires forall i :: 0 <= i < |xs| ==> sep !in xs[i]
    ensures Split(Join(xs, sep), sep) == xs
  {
    if |xs| == 1 {
      SplitField(xs[0], sep);
      assert xs == [xs[0]];
    } else {
      var init, last := xs[..|xs| - 1], xs[|xs| - 1];
      assert sep !in last;
      assert forall i :: 0 <= i < |init| ==> init[i] == xs[i];
      SplitJoin(init, sep);
      assert Join(xs, sep) == Join(init, sep) + [sep] + last;
      SplitAfterSep(Join(init, sep), last, sep);
      assert init + [last] == xs;
    }
  }

  /** Text without a separator is a single field. */
  lemma SplitField(x: string, sep: char)
    requires sep !in x
    ensures Split(x, sep) == [x]
  {
    SplitAppendField("", x, sep);
    assert "" + x == x;
  }

  /** A separator followed by plain text starts one new, last field. */
  lemma SplitAfterSep(u: string, last: string, sep: char)
    requires sep !in last
    ensures Split(u + [sep] + last, sep) == Split(u, sep) + [last]
  {
    var v := u + [sep];
    assert v[..|v| - 1] == u;
    SplitLastSep(v, sep);
    SplitAppendField(v, last, sep);
    var r, e := Split(v + last, sep), Split(u, sep) + [last];
    assert |r| == |e|;
    assert r[..|r| - 1] == e[..|e| - 1];
    assert r[|r| - 1] == "" + last == last;
    assert r == r[..|r| - 1] + [r[|r| - 1]];
    assert e == e[..|e| - 1] + [e[|e| - 1]];
  }

  /** Unfolding `Split` once, for a string that ends in the separator. */
  lemma SplitLastSep(s: string, sep: char)
    requires s != [] && s[|s| - 1] == sep
    ensures Split(s, sep) == Split(s[..|s| - 1], sep) + [""]
  {
  }
}

/** Sequence operations the extractors share: keeping the first element of
    each key (the `seen`-set loops), filtering, concatenating lists of
    lists (`list.extend` in a loop) and the subsequence order. */
module Seqs {

  /** The keys of the elements of `s`. */
  function Keys(s: seq<string>, key: string -> string): set<string> {
    set i | 0 <= i < |s| :: key(s[i])
  }

  lemma KeysAppend(s: seq<string>, x: string, key: string -> string)
    ensures Keys(s + [x], key) == Keys(s, key) + {key(x)}
  {
    var t := s + [x];
    assert forall i :: 0 <= i < |s| ==> t[i] == s[i];
    assert t[|s|] == x;
  }

  /** `s[k]` is the first element of `s` with its key. */
  predicate IsFirstWithKey(s: seq<string>, key: string -> string, k: int)
    requires 0 <= k < |s|
  {
    forall j :: 0 <= j < k ==> key(s[j]) != key(s[k])
  }

  /** The elements of `s` whose key no earlier element has, in order: what
      a loop that skips every element whose key is already in `seen` and
      adds the key otherwise keeps. */
  function KeepFirst(s: seq<string>, key: string -> string): seq<string>
    decreases |s|
  {
    if s == [] then []
    else
      var init := s[..|s| - 1];
      if key(s[|s| - 1]) in Keys(init, key) then KeepFirst(init, key)
      else KeepFirst(init, key) + [s[|s| - 1]]
  }

  /** `r` keeps the order of its elements in `s`. */
  predicate IsSubsequence(r: seq<string>, s: seq<string>)
    decreases |s|
  {
    r == [] || (s != [] && ((r[0] == s[0] && IsSubsequence(r[1..], s[1..])) || IsSubsequence(r, s[1..])))
  }

  lemma {:induction false} SubsequenceSingleton(x: string, s: seq<string>)
    ensures IsSubsequence([x], s + [x])
    decreases |s|
  {
    if s != [] {
      SubsequenceSingleton(x, s[1..]);
      assert (s + [x])[1..] == s[1..] + [x];
    }
  }

  /** Appending an element to `s` keeps every subsequence of `s` and
      extends each of them by that element. */
  lemma {:induction false} SubsequenceExtend(r: seq<string>, s: seq<string>, x: string)
    requires IsSubsequence(r, s)
    ensures IsSubsequence(r, s + [x])
    ensures IsSubsequence(r + [x], s + [x])
    decreases |s|
  {
    if r == [] {
      SubsequenceSingleton(x, s);
      assert r + [x] == [x];
    } else {
      assert (s + [x])[1..] == s[1..] + [x];
      assert (r + [x])[1..] == r[1..] + [x];
      if r[0] == s[0] && IsSubsequence(r[1..], s[1..]) {
        SubsequenceExtend(r[1..], s[1..], x);
      } else {
        SubsequenceExtend(r, s[1..], x);
      }
    }
  }

  /** Keeping first occurrences keeps the set of keys. */
  lemma {:induction false} KeepFirstKeys(s: seq<string>, key: string -> string)
    ensures Keys(KeepFirst(s, key), key) == Keys(s, key)
    decreases |s|
  {
    if s != [] {
      var init, x := s[..|s| - 1], s[|s| - 1];
      assert s == init + [x];
      KeepFirstKeys(init, key);
      KeysAppend(init, x, key);
      if key(x) !in Keys(init, key) {
        KeysAppend(KeepFirst(init, key), x, key);
      }
    }
  }

  /** No two kept elements share a key. */
  lemma {:induction false} KeepFirstDistinct(s: seq<string>, key: string -> string)
    ensures var r := KeepFirst(s, key);
      forall i, j :: 0 <= i < j < |r| ==> key(r[i]) != key(r[j])
    decreases |s|
  {
    if s != [] {
      var init, x := s[..|s| - 1], s[|s| - 1];
      KeepFirstDistinct(init, key);
      if key(x) !in Keys(init, key) {
        var r0 := KeepFirst(init, key);
        KeepFirstKeys(init, key);
        var r := r0 + [x];
        forall i, j | 0 <= i < j < |r| ensures key(r[i]) != key(r[j]) {
          if j == |r0| {
            assert r[i] == r0[i];
            assert key(r0[i]) in Keys(r0, key);
          } else {
            assert r[i] == r0[i] && r[j] == r0[j];
          }
        }
      }
    }
  }

  /** Below the last position, being first with a key does not depend on
      the last element. */
  lemma FirstWithKeyInit(s: seq<string>, key: string -> string, k: int)
    requires 0 <= k < |s| - 1
    ensures IsFirstWithKey(s, key, k) <==> IsFirstWithKey(s[..|s| - 1], key, k)
  {
    var init := s[..|s| - 1];
    assert forall j :: 0 <= j <= k ==> init[j] == s[j];
  }

  /** The last element is the first with its key when no earlier element
      has that key. */
  lemma LastIsFirst(s: seq<string>, key: string -> string)
    requires s != [] && key(s[|s| - 1]) !in Keys(s[..|s| - 1], key)
    ensures IsFirstWithKey(s, key, |s| - 1)
  {
    var init, n := s[..|s| - 1], |s| - 1;
    forall j | 0 <= j < n ensures key(s[j]) != key(s[n]) {
      assert s[j] == init[j];
      assert key(init[j]) in Keys(init, key);
    }
  }

  /** `x` is the first element of `s` with its key. */
  predicate IsAFirst(s: seq<string>, key: string -> string, x: string) {
    exists k :: 0 <= k < |s| && IsFirstWithKey(s, key, k) && x == s[k]
  }

  /** Each kept element is the first of `s` with its key. */
  lemma {:induction false} KeptAreFirsts(s: seq<string>, key: string -> string)
    ensures var r := KeepFirst(s, key);
      forall i :: 0 <= i < |r| ==> IsAFirst(s, key, r[i])
    decreases |s|
  {
    if s != [] {
      var init, n := s[..|s| - 1], |s| - 1;
      KeptAreFirsts(init, key);
      assert forall i :: 0 <= i < |KeepFirst(init, key)| ==> IsAFirst(init, key, KeepFirst(init, key)[i]);
      var r0, r := KeepFirst(init, key), KeepFirst(s, key);
      forall i | 0 <= i < |r| ensures IsAFirst(s, key, r[i]) {
        if i < |r0| {
          assert r[i] == r0[i];
          assert IsAFirst(init, key, r0[i]);
          var k :| 0 <= k < |init| && IsFirstWithKey(init, key, k) && r0[i] == init[k];
          FirstWithKeyInit(s, key, k);
          assert s[k] == init[k];
        } else {
          assert key(s[n]) !in Keys(init, key) && r[i] == s[n];
          LastIsFirst(s, key);
        }
      }
    }
  }

  /** The first element with its key has a key no earlier element has. */
  lemma NotInInit(s: seq<string>, key: string -> string)
    requires s != [] && IsFirstWithKey(s, key, |s| - 1)
    ensures key(s[|s| - 1]) !in Keys(s[..|s| - 1], key)
  {
    var init := s[..|s| - 1];
    forall j | 0 <= j < |init| ensures key(init[j]) != key(s[|s| - 1]) {
      assert init[j] == s[j];
    }
  }

  /** Each first element of `s` with its key is kept. */
  lemma {:induction false} FirstsAreKept(s: seq<string>, key: string -> string)
    ensures var r := KeepFirst(s, key);
      forall k :: 0 <= k < |s| && IsFirstWithKey(s, key, k) ==> s[k] in r
    decreases |s|
  {
    if s != [] {
      var init, n := s[..|s| - 1], |s| - 1;
      FirstsAreKept(init, key);
      var r0, r := KeepFirst(init, key), KeepFirst(s, key);
      assert forall y :: y in r0 ==> y in r;
      forall k | 0 <= k < |s| && IsFirstWithKey(s, key, k) ensures s[k] in r {
        if k < n {
          FirstWithKeyInit(s, key, k);
          assert s[k] == init[k];
        } else {
          assert k == n;
          NotInInit(s, key);
        }
      }
    }
  }

  /** Each kept element is the first of `s` with its key, and each such
      first element is kept. */
  lemma KeepFirstIsFirsts(s: seq<string>, key: string -> string)
    ensures var r := KeepFirst(s, key);
      (forall i :: 0 <= i < |r| ==> exists k :: 0 <= k < |s| && IsFirstWithKey(s, key, k) && r[i] == s[k])
      && (forall k :: 0 <= k < |s| && IsFirstWithKey(s, key, k) ==> s[k] in r)
  {
    KeptAreFirsts(s, key);
    FirstsAreKept(s, key);
    var r := KeepFirst(s, key);
    forall i | 0 <= i < |r| ensures exists k :: 0 <= k < |s| && IsFirstWithKey(s, key, k) && r[i] == s[k] {
      assert IsAFirst(s, key, r[i]);
    }
  }

  lemma {:induction false} KeepFirstSubsequence(s: seq<string>, key: string -> string)
    ensures IsSubsequence(KeepFirst(s, key), s)
    ensures |KeepFirst(s, key)| <= |s|
    decreases |s|
  {
    if s != [] {
      var init, x := s[..|s| - 1], s[|s| - 1];
      assert s == init + [x];
      KeepFirstSubsequence(init, key);
      SubsequenceExtend(KeepFirst(init, key), init, x);
    }
  }

  /** The elements of `s` satisfying `p`, in order. */
  function Filter(s: seq<string>, p: string -> bool): seq<string>
    decreases |s|
  {
    if s == [] then []
    else
      var init := Filter(s[..|s| - 1], p);
      if p(s[|s| - 1]) then init + [s[|s| - 1]] else init
  }

  /** A filter keeps exactly the elements that satisfy the predicate, in
      their order. */
  lemma {:induction false} FilterMembers(s: seq<string>, p: string -> bool)
    ensures forall x :: x in Filter(s, p) <==> x in s && p(x)
    ensures IsSubsequence(Filter(s, p), s)
    decreases |s|
  {
    if s != [] {
      var init, x := s[..|s| - 1], s[|s| - 1];
      assert s == init + [x];
      FilterMembers(init, p);
      SubsequenceExtend(Filter(init, p), init, x);
    }
  }

  lemma {:induction false} FilterAppend(a: seq<string>, b: seq<string>, p: string -> bool)
    ensures Filter(a + b, p) == Filter(a, p) + Filter(b, p)
    decreases |b|
  {
    if b == [] {
      assert a + b == a;
    } else {
      var b0 := b[..|b| - 1];
      assert (a + b)[..|a + b| - 1] == a + b0;
      assert (a + b)[|a + b| - 1] == b[|b| - 1];
      FilterAppend(a, b0, p);
    }
  }

  /** Filtering with a predicate every element satisfies changes nothing. */
  lemma {:induction false} FilterAll(s: seq<string>, p: string -> bool)
    requires forall i :: 0 <= i < |s| ==> p(s[i])
    ensures Filter(s, p) == s
    decreases |s|
  {
    if s != [] {
      FilterAll(s[..|s| - 1], p);
    }
  }

  /** Filtering with a predicate no element satisfies leaves nothing. */
  lemma {:induction false} FilterNone(s: seq<string>, p: string -> bool)
    requires forall i :: 0 <= i < |s| ==> !p(s[i])
    ensures Filter(s, p) == []
    decreases |s|
  {
    if s != [] {
      FilterNone(s[..|s| - 1], p);
    }
  }

  /** The concatenation of the lists in `ss`. */
  function Flatten(ss: seq<seq<string>>): seq<string>
    decreases |ss|
  {
    if ss == [] then [] else Flatten(ss[..|ss| - 1]) + ss[|ss| - 1]
  }

  /** The concatenation is empty exactly when every list is, and otherwise
      starts with the first element of the first non-empty list. */
  lemma {:induction false} FlattenFirst(ss: seq<seq<string>>)
    ensures Flatten(ss) == [] <==> forall i :: 0 <= i < |ss| ==> ss[i] == []
    ensures Flatten(ss) != [] ==>
      exists i :: 0 <= i < |ss| && ss[i] != [] && Flatten(ss)[0] == ss[i][0]
                  && forall j :: 0 <= j < i ==> ss[j] == []
    decreases |ss|
  {
    if ss != [] {
      var init := ss[..|ss| - 1];
      FlattenFirst(init);
      assert forall j :: 0 <= j < |init| ==> init[j] == ss[j];
      if Flatten(init) == [] && ss[|ss| - 1] != [] {
        assert Flatten(ss)[0] == ss[|ss| - 1][0];
      }
    }
  }

  /** `r := []; for l in ss: r.extend(l)` */
  method ExtendAll(ss: seq<seq<string>>) returns (r: seq<string>)
    ensures r == Flatten(ss)
  {
    r := [];
    var i := 0;
    while i < |ss|
      invariant 0 <= i <= |ss|
      invariant r == Flatten(ss[..i])
    {
      assert ss[..i + 1][..i] == ss[..i];
      r := r + ss[i];
      i := i + 1;
    }
    assert ss[..i] == ss;
  }
}

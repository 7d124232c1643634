/** Small datatypes and sequence facts shared by the other modules. */
module Prelude {

  type Byte = b: int | 0 <= b < 256

  datatype Option<+T> = None | Some(value: T)

  datatype Result<+T, +E> = Ok(value: T) | Err(error: E)

  /** xs can be obtained from ys by leaving elements out; order is kept. */
  ghost predicate Subsequence<T(!new)>(xs: seq<T>, ys: seq<T>)
    decreases |ys|
  {
    if xs == [] then true
    else if ys == [] then false
    else if xs[|xs| - 1] == ys[|ys| - 1] then Subsequence(xs[..|xs| - 1], ys[..|ys| - 1])
    else Subsequence(xs, ys[..|ys| - 1])
  }

  lemma {:induction false} SubsequenceInit<T(!new)>(xs: seq<T>, ys: seq<T>)
    requires xs != [] && Subsequence(xs, ys)
    ensures Subsequence(xs[..|xs| - 1], ys)
    decreases |ys|
  {
    var init := xs[..|xs| - 1];
    var rest := ys[..|ys| - 1];
    if xs[|xs| - 1] != ys[|ys| - 1] {
      SubsequenceInit(xs, rest);
      if init != [] && init[|init| - 1] == ys[|ys| - 1] {
        SubsequenceInit(init, rest);
      }
    } else if init != [] && init[|init| - 1] == ys[|ys| - 1] {
      SubsequenceInit(init, rest);
    }
  }

  lemma {:induction false} SubsequenceTransitive<T(!new)>(xs: seq<T>, ys: seq<T>, zs: seq<T>)
    requires Subsequence(xs, ys) && Subsequence(ys, zs)
    ensures Subsequence(xs, zs)
    decreases |zs|
  {
    if xs == [] {
    } else {
      var ysInit, zsInit := ys[..|ys| - 1], zs[..|zs| - 1];
      if ys[|ys| - 1] == zs[|zs| - 1] {
        if xs[|xs| - 1] == ys[|ys| - 1] {
          SubsequenceTransitive(xs[..|xs| - 1], ysInit, zsInit);
        } else {
          SubsequenceTransitive(xs, ysInit, zsInit);
        }
      } else {
        SubsequenceTransitive(xs, ys, zsInit);
        SubsequenceInit(xs, zsInit);
      }
    }
  }

  lemma {:induction false} SubsequenceReflexive<T(!new)>(xs: seq<T>)
    ensures Subsequence(xs, xs)
    decreases |xs|
  {
    if xs != [] {
      SubsequenceReflexive(xs[..|xs| - 1]);
    }
  }

  lemma SubsequenceSnoc<T(!new)>(xs: seq<T>, ys: seq<T>, x: T)
    requires Subsequence(xs, ys)
    ensures Subsequence(xs + [x], ys + [x])
  {
    assert (xs + [x])[..|xs|] == xs && (ys + [x])[..|ys|] == ys;
  }

  lemma SubsequenceSkip<T(!new)>(xs: seq<T>, ys: seq<T>, y: T)
    requires Subsequence(xs, ys) && y !in xs
    ensures Subsequence(xs, ys + [y])
  {
    assert (ys + [y])[..|ys|] == ys;
    assert xs != [] ==> xs[|xs| - 1] in xs;
  }

  lemma {:induction false} SubsequencePrefix<T(!new)>(a: seq<T>, xs: seq<T>, ys: seq<T>)
    requires Subsequence(xs, ys)
    ensures Subsequence(a + xs, a + ys)
    decreases |ys|
  {
    if ys == [] {
      assert a + xs == a + ys;
      SubsequenceReflexive(a + ys);
    } else {
      var last, init := ys[|ys| - 1], ys[..|ys| - 1];
      assert a + ys == (a + init) + [last];
      if xs != [] && xs[|xs| - 1] == last {
        SubsequencePrefix(a, xs[..|xs| - 1], init);
        SubsequenceSnoc(a + xs[..|xs| - 1], a + init, last);
        assert a + xs[..|xs| - 1] + [last] == a + xs;
      } else {
        SubsequencePrefix(a, xs, init);
        SubsequenceGrow(a + xs, a + init, last);
      }
    }
  }

  lemma SubsequenceGrow<T(!new)>(xs: seq<T>, ys: seq<T>, y: T)
    requires Subsequence(xs, ys)
    ensures Subsequence(xs, ys + [y])
  {
    assert (ys + [y])[..|ys|] == ys;
    if xs != [] && xs[|xs| - 1] == y {
      SubsequenceInit(xs, ys);
    }
  }

  /** Every element of a subsequence occurs in the whole. */
  lemma {:induction false} SubsequenceMember<T(!new)>(xs: seq<T>, ys: seq<T>, i: nat) returns (j: nat)
    requires Subsequence(xs, ys) && i < |xs|
    ensures j < |ys| && ys[j] == xs[i]
    decreases |ys|
  {
    if xs[|xs| - 1] == ys[|ys| - 1] {
      if i == |xs| - 1 {
        j := |ys| - 1;
      } else {
        j := SubsequenceMember(xs[..|xs| - 1], ys[..|ys| - 1], i);
      }
    } else {
      j := SubsequenceMember(xs, ys[..|ys| - 1], i);
    }
  }
}

/** Subsequences: what a relay that may drop, but never reorders or duplicates, can deliver. */
module Subsequences {
  ghost predicate Subseq<T>(a: seq<T>, b: seq<T>) {
    || a == []
    || (b != [] && ((a[0] == b[0] && Subseq(a[1..], b[1..])) || Subseq(a, b[1..])))
  }

  lemma {:induction false} SubseqLength<T>(a: seq<T>, b: seq<T>)
    requires Subseq(a, b)
    ensures |a| <= |b|
    ensures |a| == |b| ==> a == b
    decreases |b|
  {
    if a != [] {
      if a[0] == b[0] && Subseq(a[1..], b[1..]) {
        SubseqLength(a[1..], b[1..]);
      } else {
        SubseqLength(a, b[1..]);
      }
    }
  }

  lemma {:induction false} SubseqSkip<T>(a: seq<T>, b: seq<T>, c: seq<T>)
    requires Subseq(a, b)
    ensures Subseq(a, b + c)
    decreases |b|
  {
    if a != [] {
      assert (b + c)[1..] == b[1..] + c;
      if a[0] == b[0] && Subseq(a[1..], b[1..]) {
        SubseqSkip(a[1..], b[1..], c);
      } else {
        SubseqSkip(a, b[1..], c);
      }
    }
  }

  lemma {:induction false} SubseqBoth<T>(a: seq<T>, b: seq<T>, c: seq<T>)
    requires Subseq(a, b)
    ensures Subseq(a + c, b + c)
    decreases |b|
  {
    if a == [] {
      assert a + c == c;
      SubseqTail(c, b);
    } else {
      assert (b + c)[1..] == b[1..] + c && (a + c)[1..] == a[1..] + c;
      if a[0] == b[0] && Subseq(a[1..], b[1..]) {
        SubseqBoth(a[1..], b[1..], c);
      } else {
        SubseqBoth(a, b[1..], c);
      }
    }
  }

  lemma {:induction false} SubseqTail<T>(c: seq<T>, b: seq<T>)
    ensures Subseq(c, b + c)
    decreases |b|
  {
    if b == [] {
      assert b + c == c;
      SubseqSelf(c);
    } else {
      assert (b + c)[1..] == b[1..] + c;
      SubseqTail(c, b[1..]);
    }
  }

  lemma {:induction false} SubseqSelf<T>(c: seq<T>)
    ensures Subseq(c, c)
  {
    if c != [] {
      SubseqSelf(c[1..]);
    }
  }

  lemma SubseqPrefix<T>(a: seq<T>, b: seq<T>)
    requires a <= b
    ensures Subseq(a, b)
  {
    SubseqSelf(a);
    SubseqSkip(a, a, b[|a|..]);
  }

  lemma {:induction false} SubseqTrans<T>(a: seq<T>, b: seq<T>, c: seq<T>)
    requires Subseq(a, b) && Subseq(b, c)
    ensures Subseq(a, c)
    decreases |b| + |c|
  {
    if a != [] {
      if b[0] == c[0] && Subseq(b[1..], c[1..]) {
        if a[0] == b[0] && Subseq(a[1..], b[1..]) {
          SubseqTrans(a[1..], b[1..], c[1..]);
        } else {
          SubseqTrans(a, b[1..], c[1..]);
        }
      } else {
        SubseqTrans(a, b, c[1..]);
      }
    }
  }

  lemma {:induction false} SubseqMember<T>(a: seq<T>, b: seq<T>, x: T)
    requires Subseq(a, b) && x in a
    ensures x in b
    decreases |b|
  {
    if a[0] == b[0] && Subseq(a[1..], b[1..]) {
      if x != a[0] {
        SubseqMember(a[1..], b[1..], x);
      }
    } else {
      SubseqMember(a, b[1..], x);
    }
  }

  lemma {:induction false} SubseqCons<T>(c: seq<T>, a: seq<T>, b: seq<T>)
    requires Subseq(a, b)
    ensures Subseq(c + a, c + b)
  {
    if c == [] {
      assert c + a == a && c + b == b;
    } else {
      SubseqCons(c[1..], a, b);
      assert (c + a)[1..] == c[1..] + a && (c + b)[1..] == c[1..] + b;
    }
  }
}

/** Lists of outcomes in which SUCCESS and STREAM_STOPPED strictly alternate, starting with SUCCESS. */
module Marks {
  import opened Messages

  predicate IsMark(o: Outcome) {
    o.Success? || o.StreamStopped?
  }

  /** The outcome at position a; before the first one the node counts as stopped. */
  function At(os: seq<Outcome>, a: int): Outcome
    requires -1 <= a < |os|
  {
    if a < 0 then StreamStopped else os[a]
  }

  /** Between the marks at a and b lies one of the other kind. */
  predicate Separated(os: seq<Outcome>, a: int, b: int)
    requires -1 <= a < b < |os|
  {
    exists k :: a < k < b && os[k] == (if At(os, a).Success? then StreamStopped else Success)
  }

  /** Between two SUCCESS lies a STREAM_STOPPED and conversely, and before the first STREAM_STOPPED a SUCCESS. */
  ghost predicate Alternating(os: seq<Outcome>) {
    forall a, b {:trigger Separated(os, a, b)} ::
      -1 <= a < b < |os| && At(os, a) == At(os, b) && IsMark(os[b]) ==> Separated(os, a, b)
  }

  /** The last SUCCESS or STREAM_STOPPED was a SUCCESS. */
  function LastMark(os: seq<Outcome>): bool {
    if os == [] then false
    else if IsMark(os[|os| - 1]) then os[|os| - 1].Success?
    else LastMark(os[..|os| - 1])
  }

  lemma MarkAppend(os: seq<Outcome>, o: Outcome)
    ensures LastMark(os + [o]) == if IsMark(o) then o.Success? else LastMark(os)
  {
    assert (os + [o])[..|os|] == os;
  }

  /** The last SUCCESS or STREAM_STOPPED is at position a, or a is -1 and there is none. */
  ghost predicate Marked(os: seq<Outcome>, a: int) {
    && -1 <= a < |os|
    && At(os, a) == (if LastMark(os) then Success else StreamStopped)
    && (forall k :: a < k < |os| ==> !IsMark(os[k]))
  }

  lemma {:induction false} MarkAt(os: seq<Outcome>) returns (a: int)
    ensures Marked(os, a)
  {
    a := |os| - 1;
    if os != [] && !IsMark(os[a]) {
      var init := os[..a];
      a := MarkAt(init);
      assert forall k :: 0 <= k < |init| ==> os[k] == init[k];
    }
  }

  lemma SeparatedPrefix(os: seq<Outcome>, o: Outcome, a: int, b: int)
    requires -1 <= a < b < |os|
    ensures Separated(os + [o], a, b) <==> Separated(os, a, b)
  {
    var os' := os + [o];
    if Separated(os, a, b) {
      var k :| a < k < b && os[k] == (if At(os, a).Success? then StreamStopped else Success);
      assert os'[k] == os[k];
    }
    if Separated(os', a, b) {
      var k :| a < k < b && os'[k] == (if At(os', a).Success? then StreamStopped else Success);
      assert os'[k] == os[k];
    }
  }

  /** A new mark is separated from every equal one if the last mark is of the other kind, and else not from that. */
  lemma SeparatedLast(os: seq<Outcome>, o: Outcome, a: int, m: int)
    requires Marked(os, m) && -1 <= a < |os| && At(os, a) == o && IsMark(o)
    ensures At(os, m) != o ==> Separated(os + [o], a, |os|)
    ensures At(os, m) == o ==> !Alternating(os + [o])
  {
    var os' := os + [o];
    if At(os, m) != o {
      assert a < m && os'[m] == os[m];
    } else {
      assert forall k :: m < k < |os| ==> os'[k] == os[k];
      assert At(os', m) == o && !Separated(os', m, |os|);
    }
  }

  lemma PrefixOfPrefix(a: seq<Outcome>, b: seq<Outcome>, c: seq<Outcome>)
    requires a <= b <= c
    ensures a <= c
  {
  }

  /** An alternating list goes on alternating exactly if a SUCCESS comes after a stop (or first) and a
      STREAM_STOPPED after a SUCCESS. */
  lemma AlternatingNext(os: seq<Outcome>, o: Outcome)
    ensures Alternating(os + [o]) <==> Alternating(os) && (IsMark(o) ==> o.Success? != LastMark(os))
  {
    var os' := os + [o];
    var m := MarkAt(os);
    if Alternating(os') {
      forall a, b | -1 <= a < b < |os| && At(os, a) == At(os, b) && IsMark(os[b]) ensures Separated(os, a, b) {
        SeparatedPrefix(os, o, a, b);
      }
      if IsMark(o) && o.Success? == LastMark(os) {
        SeparatedLast(os, o, m, m);
      }
    } else if Alternating(os) && (IsMark(o) ==> o.Success? != LastMark(os)) {
      forall a, b | -1 <= a < b < |os'| && At(os', a) == At(os', b) && IsMark(os'[b]) ensures Separated(os', a, b) {
        if b < |os| {
          assert Separated(os, a, b);
          SeparatedPrefix(os, o, a, b);
        } else {
          SeparatedLast(os, o, a, m);
        }
      }
    }
  }
}

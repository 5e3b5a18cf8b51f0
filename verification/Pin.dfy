/** core/pin/pin.go: workers finish blocks in any order; the pin's height is a contiguous high-water mark. */
module Pins {

  // ---------------------------------------------------------------- sort.Sort on uint64s

  ghost predicate Sorted(s: seq<nat>)
  {
    forall i, j :: 0 <= i < j < |s| ==> s[i] <= s[j]
  }

  function Insert(x: nat, s: seq<nat>): seq<nat>
  {
    if s == [] || x <= s[0] then [x] + s else [s[0]] + Insert(x, s[1..])
  }

  function Sort(s: seq<nat>): seq<nat>
  {
    if s == [] then [] else Insert(s[0], Sort(s[1..]))
  }

  lemma {:induction false} InsertElements(x: nat, s: seq<nat>)
    ensures multiset(Insert(x, s)) == multiset(s) + multiset{x}
    ensures forall y :: y in Insert(x, s) ==> y == x || y in s
    decreases |s|
  {
    if s != [] {
      assert s == [s[0]] + s[1..];
      if x > s[0] { InsertElements(x, s[1..]); }
    }
  }

  lemma {:induction false} InsertSorted(x: nat, s: seq<nat>)
    requires Sorted(s)
    ensures Sorted(Insert(x, s))
    decreases |s|
  {
    if s != [] && x > s[0] {
      InsertSorted(x, s[1..]);
      InsertElements(x, s[1..]);
      var t := Insert(x, s[1..]);
      forall i | 0 <= i < |t| ensures s[0] <= t[i] {
        assert t[i] in t;
      }
    }
  }

  lemma {:induction false} SortMeaning(s: seq<nat>)
    ensures Sorted(Sort(s)) && multiset(Sort(s)) == multiset(s)
  {
    if s != [] {
      SortMeaning(s[1..]);
      InsertSorted(s[0], Sort(s[1..]));
      InsertElements(s[0], Sort(s[1..]));
      assert s == [s[0]] + s[1..];
    }
  }

  lemma {:induction false} SortElements(s: seq<nat>, h: nat)
    ensures h in Sort(s) <==> h in s
  {
    SortMeaning(s);
    assert h in multiset(Sort(s)) <==> h in multiset(s);
  }

  // ---------------------------------------------------------------- the high-water mark

  /** to is the end of the longest run of heights in done that starts right above `from`. */
  ghost predicate IsRunEnd(from: nat, to: nat, done: set<nat>)
  {
    from <= to && (forall h :: from < h <= to ==> h in done) && to + 1 !in done
  }

  lemma {:induction false} RunEndIsUnique(from: nat, a: nat, b: nat, done: set<nat>)
    requires IsRunEnd(from, a, done) && IsRunEnd(from, b, done)
    ensures a == b
  {
    assert from < a + 1 && from < b + 1;
    assert !(a + 1 <= b) && !(b + 1 <= a);
  }

  class Pin {
    var height: nat
    var completed: seq<nat>
    // the height the pin was created with
    ghost const base: nat
    // the heights complete was called with here, and those finished here or by another process
    ghost var done: set<nat>
    ghost var finished: set<nat>

    ghost predicate Valid()
      reads this
    {
      && base <= height
      && Sorted(completed)
      && (forall h :: h in completed ==> h in done)
      && (forall h :: h in done && h > height ==> h in completed)
      && done <= finished
      // the height never passes an unfinished block
      && (forall h :: base < h <= height ==> h in finished)
    }

    constructor (height: nat)
      ensures Valid() && this.height == height && base == height && done == {} && finished == {}
    {
      this.height, this.completed := height, [];
      base, done, finished := height, {}, {};
    }

    /**
     * complete. The two database statements may each fail; then the list is kept and a later call catches
     * up. On success the height is the end of the longest contiguous run of finished blocks.
     */
    method Complete(h: nat, updateOk: bool, notifyOk: bool) returns (ok: bool)
      requires Valid()
      modifies this
      ensures Valid() && done == old(done) + {h} && finished == old(finished) + {h}
      ensures ok ==> IsRunEnd(old(height), height, done)
      ensures !ok ==> height == old(height)
      ensures updateOk && notifyOk ==> ok
    {
      ghost var was := completed;
      completed := Sort(completed + [h]);
      done, finished := done + {h}, finished + {h};
      SortMeaning(was + [h]);
      forall k ensures k in completed <==> k in was || k == h {
        SortElements(was + [h], k);
      }
      var max, i := Scan(completed, height, done);
      if max == height {
        return true;
      }
      if !updateOk || !notifyOk {
        return false;
      }
      completed := completed[i..];
      height := max;
      return true;
    }

    /** The height update in Listen: the notified height comes from a process that finished every block up to it. */
    method Notify(h: nat)
      requires Valid() && forall k :: base < k <= h ==> k in finished
      modifies this
      ensures Valid() && done == old(done) && finished == old(finished)
      ensures height == if old(height) < h then h else old(height)
    {
      if height < h {
        height := h;
      }
    }

    /** Another process finishes a block. */
    ghost method FinishElsewhere(h: nat)
      requires Valid()
      modifies this`finished
      ensures Valid() && finished == old(finished) + {h}
    {
      finished := finished + {h};
    }
  }

  /** The scan loop of complete: how far the run goes, and where in the list it stops. */
  method Scan(completed: seq<nat>, height: nat, ghost done: set<nat>) returns (max: nat, i: nat)
    requires Sorted(completed)
    requires forall h :: h in completed ==> h in done
    requires forall h :: h in done && h > height ==> h in completed
    ensures IsRunEnd(height, max, done)
    ensures i <= |completed| && forall h :: h in done && h > max ==> h in completed[i..]
  {
    max, i := height, 0;
    while i < |completed|
      invariant i <= |completed| && height <= max
      invariant forall k :: 0 <= k < i ==> completed[k] <= max
      invariant forall h :: height < h <= max ==> h in done
    {
      if completed[i] <= max {
      } else if completed[i] > max + 1 {
        break;
      } else {
        max := completed[i];
      }
      i := i + 1;
    }
    forall h | h in done && h > max ensures h in completed[i..] && h != max + 1 {
      var k :| 0 <= k < |completed| && completed[k] == h;
      assert completed[i..][k - i] == h;
      assert completed[i] <= completed[k];
    }
  }
}

/**
 The receiver's replay window (src/snow_types.rs): a bounded set of the nonces let through
 so far. Its specification keeps the whole history instead of a bounded set.
 */
module ReplayWindow {
  import opened Common

  /** The test made before a nonce is recorded. */
  predicate Accepts(seen: set<nat>, nonce: nat) {
    !(nonce in seen || (seen != {} && Least(seen) > nonce))
  }

  /** Drop the smallest nonces until at most `size` are left. */
  function Trim(seen: set<nat>, size: nat): (r: set<nat>)
    ensures r <= seen && |r| <= size
  {
    if |seen| <= size then seen
    else
      Trim(seen - {Least(seen)}, size)
  }

  function Record(seen: set<nat>, size: nat, nonce: nat): (r: set<nat>) {
    Trim(seen + {nonce}, size)
  }

  /** What the window does with one nonce: pass it and remember it, or leave the window alone. */
  function Offer(seen: set<nat>, size: nat, nonce: nat): (r: set<nat>) {
    if Accepts(seen, nonce) then Record(seen, size, nonce) else seen
  }

  /** The window after a whole sequence of offered nonces. */
  function Run(size: nat, offered: seq<nat>): set<nat> {
    if offered == [] then {}
    else Offer(Run(size, offered[..|offered| - 1]), size, offered[|offered| - 1])
  }

  /** The nonces let through, in order. */
  function Passed(size: nat, offered: seq<nat>): seq<nat> {
    if offered == [] then []
    else
      var before, n := offered[..|offered| - 1], offered[|offered| - 1];
      Passed(size, before) + (if Accepts(Run(size, before), n) then [n] else [])
  }

  // ----- The reference: decide from the complete history -----

  /** The `size` largest elements of the history. */
  function Largest(history: set<nat>, size: nat): set<nat> {
    set h | h in history && |Above(history, h)| < size
  }

  /** A nonce is fresh when it is new and fewer than min(size, |history|) passed nonces exceed it. */
  predicate Fresh(history: set<nat>, size: nat, n: nat) {
    n !in history && (history == {} || (|Above(history, n)| < size && |Above(history, n)| < |history|))
  }

  function Elements(s: seq<nat>): set<nat> {
    set x | x in s
  }

  lemma {:induction false} LargestSize(history: set<nat>, size: nat)
    ensures |Largest(history, size)| == if |history| <= size then |history| else size
    ensures |history| <= size ==> Largest(history, size) == history
    decreases |history|
  {
    if |history| <= size {
      forall h | h in history ensures |Above(history, h)| < size {
        SubsetSize(Above(history, h), history - {h});
      }
      assert Largest(history, size) == history;
    } else {
      var m := Least(history);
      var rest := history - {m};
      assert Above(history, m) == rest;
      forall h | h in rest ensures Above(history, h) == Above(rest, h) {
      }
      assert Largest(history, size) == Largest(rest, size);
      LargestSize(rest, size);
    }
  }

  /** Everything above an element of `Largest` is in `Largest` too. */
  lemma LargestUpwards(history: set<nat>, size: nat, x: nat, y: nat)
    requires x in Largest(history, size) && y in history && y > x
    ensures y in Largest(history, size)
  {
    SubsetSize(Above(history, y), Above(history, x));
  }

  /** What lies above the least of the `size` largest is exactly the others. */
  lemma AboveLeast(history: set<nat>, size: nat)
    requires Largest(history, size) != {}
    ensures var top := Largest(history, size);
            Above(history, Least(top)) == top - {Least(top)}
  {
    var top := Largest(history, size);
    var m := Least(top);
    forall y | y in Above(history, m) ensures y in top {
      LargestUpwards(history, size, m, y);
    }
  }

  /** The bounded window gives the same answer as the full history. */
  lemma AcceptsIsFresh(history: set<nat>, size: nat, n: nat)
    requires size >= 1
    ensures Accepts(Largest(history, size), n) <==> Fresh(history, size, n)
  {
    var top := Largest(history, size);
    LargestSize(history, size);
    if history != {} {
      var m := Least(top);
      AboveLeast(history, size);
      if n > m {
        assert Above(history, n) <= top - {m};
        SubsetSize(Above(history, n), top - {m});
        if n in history { LargestUpwards(history, size, m, n); }
      } else if n < m {
        assert top <= Above(history, n);
        SubsetSize(top, Above(history, n));
      }
    }
  }

  /** Recording an accepted nonce keeps the window equal to the largest of the history. */
  lemma RecordIsLargest(history: set<nat>, size: nat, n: nat)
    requires size >= 1 && Accepts(Largest(history, size), n)
    ensures Record(Largest(history, size), size, n) == Largest(history + {n}, size)
  {
    var top := Largest(history, size);
    var more := history + {n};
    LargestSize(history, size);
    LargestSize(more, size);
    AcceptsIsFresh(history, size, n);
    if |top| < size {
      assert top == history;
      assert Trim(top + {n}, size) == more;
    } else {
      FullRecordIsLargest(history, size, n);
    }
  }

  /** A full window lets its least nonce go for the new one. */
  lemma FullRecordIsLargest(history: set<nat>, size: nat, n: nat)
    requires size >= 1 && Accepts(Largest(history, size), n) && |Largest(history, size)| == size
    ensures Record(Largest(history, size), size, n) == Largest(history + {n}, size)
  {
    var top, more := Largest(history, size), history + {n};
    var m := Least(top);
    var next := top + {n} - {m};
    AboveLeast(history, size);
    assert n > m && Least(top + {n}) == m && |next| == size;
    assert Trim(top + {n}, size) == next;
    forall x | x in next ensures x in Largest(more, size) {
      forall y | y in Above(more, x) ensures y in next - {x} {
        assert y == n || y in Above(history, m);
      }
      SubsetSize(Above(more, x), next - {x});
    }
    LargestSize(more, size);
    SubsetSize(next, Largest(more, size));
  }

  lemma ElementsAppend(s: seq<nat>, n: nat)
    ensures Elements(s + [n]) == Elements(s) + {n}
  {
  }

  lemma PassedSnoc(size: nat, before: seq<nat>, n: nat)
    ensures Passed(size, before + [n])
         == if Accepts(Run(size, before), n) then Passed(size, before) + [n] else Passed(size, before)
    ensures Run(size, before + [n]) == Offer(Run(size, before), size, n)
  {
    assert (before + [n])[..|before|] == before;
  }

  /** The window refines the history for every size of at least one and every sequence of nonces. */
  lemma {:induction false} WindowRefinesHistory(size: nat, offered: seq<nat>)
    requires size >= 1
    ensures Run(size, offered) == Largest(Elements(Passed(size, offered)), size)
    ensures NoDuplicates(Passed(size, offered))
  {
    if offered == [] {
      assert Elements([]) == {};
    } else {
      var before, n := offered[..|offered| - 1], offered[|offered| - 1];
      assert offered == before + [n];
      WindowRefinesHistory(size, before);
      PassedSnoc(size, before, n);
      var passed := Passed(size, before);
      if Accepts(Run(size, before), n) {
        RecordIsLargest(Elements(passed), size, n);
        AcceptsIsFresh(Elements(passed), size, n);
        ElementsAppend(passed, n);
        assert n !in passed;
      }
    }
  }

  /** After any sequence, the window's answer to the next nonce is the reference's answer. */
  lemma WindowAnswersAsHistory(size: nat, offered: seq<nat>, n: nat)
    requires size >= 1
    ensures Accepts(Run(size, offered), n) <==> Fresh(Elements(Passed(size, offered)), size, n)
  {
    WindowRefinesHistory(size, offered);
    AcceptsIsFresh(Elements(Passed(size, offered)), size, n);
  }

  /** With the size in use, 1, the nonces let through only ever grow. */
  lemma {:induction false} SizeOneIncreases(offered: seq<nat>)
    ensures Increasing(Passed(1, offered))
    ensures var p := Passed(1, offered); Run(1, offered) == if p == [] then {} else {p[|p| - 1]}
  {
    if offered != [] {
      var before, n := offered[..|offered| - 1], offered[|offered| - 1];
      SizeOneIncreases(before);
      SizeOneOffer(Run(1, before), n);
    }
  }

  /** One step of a window of size 1. */
  lemma SizeOneOffer(seen: set<nat>, n: nat)
    requires |seen| <= 1
    ensures Accepts(seen, n) <==> forall m :: m in seen ==> m < n
    ensures Offer(seen, 1, n) == if Accepts(seen, n) then {n} else seen
  {
    if seen != {} {
      var m := Least(seen);
      SubsetSize({m}, seen);
      assert seen == {m};
      if Accepts(seen, n) {
        assert seen + {n} == {m, n};
        assert Least(seen + {n}) == m;
        assert seen + {n} - {m} == {n};
        assert Trim({n}, 1) == {n};
      }
    } else {
      assert seen + {n} == {n};
    }
  }

  /** Replays are kept out for every sequence exactly when the window has room for one nonce. */
  lemma NoReplayIff(size: nat)
    ensures (forall offered :: NoDuplicates(Passed(size, offered))) <==> size >= 1
  {
    if size >= 1 {
      forall offered ensures NoDuplicates(Passed(size, offered)) {
        WindowRefinesHistory(size, offered);
      }
    } else {
      var once, twice := [7], [7, 7];
      assert once[..0] == [] && twice[..1] == once;
      assert Run(0, once) == {};
      assert Passed(0, once) == [7];
      assert Passed(0, twice) == [7, 7];
      assert !NoDuplicates(Passed(0, twice));
    }
  }

  /** On a network that neither loses nor reorders, increasing nonces all pass. */
  lemma {:induction false} InOrderAllPass(size: nat, offered: seq<nat>)
    requires size >= 1 && Increasing(offered)
    ensures Passed(size, offered) == offered
  {
    if offered != [] {
      var before, n := offered[..|offered| - 1], offered[|offered| - 1];
      assert offered == before + [n];
      InOrderAllPass(size, before);
      WindowRefinesHistory(size, before);
      PassedSnoc(size, before, n);
      forall m | m in Run(size, before) ensures m < n {
        var i :| 0 <= i < |before| && before[i] == m;
        assert offered[i] == m;
      }
    }
  }
}

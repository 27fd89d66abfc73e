/** CallStackListenerSupport: the registry of call-stack listeners, a copy-on-write
    array that is replaced by a new array on every change. */
module ListenerSupport {

  /** A registered listener, compared by identity as `equals` does by default. */
  datatype Listener = Listener(id: nat)

  /** `ls.remove(l)` on a list: the first occurrence of l is taken out. */
  function RemoveFirst(s: seq<Listener>, l: Listener): seq<Listener>
  {
    if |s| == 0 then []
    else if s[0] == l then s[1..]
    else [s[0]] + RemoveFirst(s[1..], l)
  }

  /** Removing the first occurrence at index i, where no earlier entry is l. */
  lemma {:induction false} RemoveFirstAt(s: seq<Listener>, l: Listener, i: nat)
    requires i <= |s| && (i < |s| ==> s[i] == l)
    requires forall j | 0 <= j < i :: s[j] != l
    ensures RemoveFirst(s, l) == if i < |s| then s[..i] + s[i + 1..] else s
    decreases i
  {
    if i > 0 {
      RemoveFirstAt(s[1..], l, i - 1);
      if i < |s| {
        assert s[..i] == [s[0]] + s[1..][..i - 1];
        assert s[i + 1..] == s[1..][i..];
      } else {
        assert s == [s[0]] + s[1..];
      }
    }
  }

  /** Removing a listener that is not registered changes nothing. */
  lemma {:induction false} RemoveAbsent(s: seq<Listener>, l: Listener)
    requires l !in s
    ensures RemoveFirst(s, l) == s
    decreases |s|
  {
    if |s| > 0 {
      RemoveAbsent(s[1..], l);
      assert s == [s[0]] + s[1..];
    }
  }

  /** Removing takes exactly one occurrence of a registered listener away and keeps
      the order of the others. */
  lemma {:induction false} RemoveFirstCounts(s: seq<Listener>, l: Listener)
    ensures l in s ==> |RemoveFirst(s, l)| == |s| - 1
    ensures multiset(RemoveFirst(s, l)) == multiset(s) - multiset{l}
    decreases |s|
  {
    if |s| > 0 {
      RemoveFirstCounts(s[1..], l);
      assert s == [s[0]] + s[1..];
    }
  }

  /** Adding a listener that was not registered, then removing it, restores the list. */
  lemma {:induction false} AddThenRemove(s: seq<Listener>, l: Listener)
    requires l !in s
    ensures RemoveFirst(s + [l], l) == s
  {
    RemoveFirstAt(s + [l], l, |s|);
    assert (s + [l])[..|s|] == s;
  }

  class CallStackListenerSupport {
    var callStackListeners: array<Listener>

    /** The registered listeners, in registration order. */
    function Listeners(): seq<Listener>
      reads this, callStackListeners
    {
      callStackListeners[..]
    }

    constructor ()
      ensures Listeners() == []
    {
      callStackListeners := new Listener[0];
    }

    /** `addListener(l)`: a new array, the old entries then l. */
    method AddListener(l: Listener)
      modifies this
      ensures Listeners() == old(Listeners()) + [l]
      ensures fresh(callStackListeners)
    {
      var prev := callStackListeners;
      var len := prev.Length;
      var chg := new Listener[len + 1](_ => l);
      forall i | 0 <= i < len {
        chg[i] := prev[i];
      }
      chg[len] := l;
      assert chg[..] == prev[..] + [l];
      callStackListeners := chg;
    }

    /** `removeListener(l)`: a new array without the first occurrence of l. */
    method RemoveListener(l: Listener)
      modifies this
      ensures Listeners() == RemoveFirst(old(Listeners()), l)
      ensures fresh(callStackListeners)
    {
      var prev := callStackListeners;
      var len := prev.Length;
      var i := 0;
      while i < len && prev[i] != l
        invariant 0 <= i <= len
        invariant forall j | 0 <= j < i :: prev[j] != l
      {
        i := i + 1;
      }
      RemoveFirstAt(prev[..], l, i);
      var n := if i < len then len - 1 else len;
      var chg := new Listener[n](_ => l);
      forall j | 0 <= j < n {
        chg[j] := if j < i then prev[j] else prev[j + len - n];
      }
      if i < len {
        assert chg[..] == prev[..i] + prev[i + 1..];
      } else {
        assert chg[..] == prev[..];
      }
      callStackListeners := chg;
    }
  }
}

/** The optional value used in place of a nullable pointer. */
module Optional {
  datatype Option<T> = None | Some(value: T)
}

/** The demodulator registry: the ordered list of bound demodulators,
    edited by bindDemodulator (append) and removeDemodulator (erase the
    first occurrence). Demodulators are referred to by identity; the same
    demodulator may be bound more than once. */
module Registry {

  /** The identity of a demodulator instance (its address in the source). */
  type DemodId = nat

  /** Position of the first occurrence of `x` in `s`, or `|s|` when `x`
      does not occur (what std::find returns). */
  function IndexOf(s: seq<DemodId>, x: DemodId): (i: nat)
    ensures i <= |s|
    ensures i < |s| ==> s[i] == x
    ensures forall j :: 0 <= j < i ==> s[j] != x
    ensures i == |s| <==> x !in s
  {
    if s == [] then 0
    else if s[0] == x then 0
    else 1 + IndexOf(s[1..], x)
  }

  /** The list with the first occurrence of `x` erased, as a reference
      definition by recursion on the list. */
  function RemoveFirst(s: seq<DemodId>, x: DemodId): seq<DemodId>
  {
    if s == [] then []
    else if s[0] == x then s[1..]
    else [s[0]] + RemoveFirst(s[1..], x)
  }

  /** Erasing the first occurrence is cutting the list at the index
      std::find finds; a missing demodulator leaves the list as it is. */
  lemma {:induction false} RemoveFirstAt(s: seq<DemodId>, x: DemodId)
    ensures IndexOf(s, x) < |s| ==> RemoveFirst(s, x) == s[..IndexOf(s, x)] + s[IndexOf(s, x) + 1..]
    ensures IndexOf(s, x) == |s| ==> RemoveFirst(s, x) == s
  {
    if s != [] && s[0] != x {
      var t := s[1..];
      RemoveFirstAt(t, x);
      var i := IndexOf(t, x);
      if i < |t| {
        CutAfterHead(s, i);
      }
    }
  }

  lemma CutAfterHead(s: seq<DemodId>, i: nat)
    requires i + 1 < |s|
    ensures s[..i + 1] + s[i + 2..] == [s[0]] + (s[1..][..i] + s[1..][i + 1..])
  {
    assert s[..i + 1] == [s[0]] + s[1..][..i];
  }

  /** Removal takes away exactly one occurrence of a bound demodulator and
      nothing else (the order of the rest is kept, by RemoveFirstAt). */
  lemma {:induction false} RemoveFirstContents(s: seq<DemodId>, x: DemodId)
    ensures x in s ==> |RemoveFirst(s, x)| == |s| - 1
    ensures x in s ==> multiset(RemoveFirst(s, x)) == multiset(s) - multiset{x}
    ensures x !in s ==> RemoveFirst(s, x) == s
  {
    if s != [] {
      RemoveFirstContents(s[1..], x);
      assert s == [s[0]] + s[1..];
      if s[0] != x && x in s {
        assert x in s[1..];
      }
    }
  }

  /** Binding a demodulator that is not yet bound and removing it again
      restores the registry. */
  lemma {:induction false} BindThenRemove(s: seq<DemodId>, x: DemodId)
    requires x !in s
    ensures RemoveFirst(s + [x], x) == s
  {
    if s != [] {
      assert (s + [x])[1..] == s[1..] + [x];
      BindThenRemove(s[1..], x);
    }
  }

  /** Binding a demodulator a second time and then removing it erases the
      earlier binding and keeps the new one at the end. */
  lemma {:induction false} RebindThenRemove(s: seq<DemodId>, x: DemodId)
    requires x in s
    ensures RemoveFirst(s + [x], x) == RemoveFirst(s, x) + [x]
  {
    if s[0] != x {
      assert (s + [x])[1..] == s[1..] + [x];
      RebindThenRemove(s[1..], x);
    } else {
      assert (s + [x])[1..] == s[1..] + [x];
    }
  }
}

/** The values the Frootball lobby hands to the match (Frootball/LobbyManager.cs and
    Frootball/GameManager.cs), and the two List<T> operations both of them rely on:
    keeping the entries that pass a test, and List.Remove, which drops the first match. */
module Frootball {

  datatype Team = NoTeam | Blue | Red

  datatype Controlls = Keyboard | JoyOne | JoyTwo | JoyThree | JoyFour | AI

  /** A Unity Color; two colours are the same when all four channels are. */
  datatype Color = Color(r: real, g: real, b: real, a: real)

  /** The part of a player's settings the lobby and the match read. */
  datatype PlayerSettings = PlayerSettings(team: Team, controlls: Controlls, difficultyPreset: int)

  /** The settings asset the lobby fills and the match reads (a ScriptableObject). */
  class PlayerSpawnSettings {
    var playerSettings: seq<PlayerSettings>

    constructor ()
      ensures playerSettings == []
    {
      playerSettings := [];
    }
  }

  /** The entries of s that pass f, in the order of s. */
  function Keep<T>(s: seq<T>, f: T -> bool): (r: seq<T>)
    ensures |r| <= |s|
  {
    if s == [] then [] else Keep(s[..|s| - 1], f) + (if f(s[|s| - 1]) then [s[|s| - 1]] else [])
  }

  /** Exactly the entries that pass are kept. */
  lemma {:induction false} KeepMembers<T>(s: seq<T>, f: T -> bool, x: T)
    ensures x in Keep(s, f) <==> x in s && f(x)
  {
    if s != [] {
      var init := s[..|s| - 1];
      KeepMembers(init, f, x);
      assert s == init + [s[|s| - 1]];
    }
  }

  /** Keeping distributes over concatenation, so the kept entries stay in their order. */
  lemma {:induction false} KeepConcat<T>(a: seq<T>, b: seq<T>, f: T -> bool)
    ensures Keep(a + b, f) == Keep(a, f) + Keep(b, f)
  {
    if b == [] {
      assert a + b == a;
    } else {
      var init := b[..|b| - 1];
      KeepConcat(a, init, f);
      assert (a + b)[..|a + b| - 1] == a + init;
    }
  }

  /** Two tests that agree on every entry keep the same entries. */
  lemma {:induction false} KeepAgrees<T>(s: seq<T>, f: T -> bool, g: T -> bool)
    requires forall i :: 0 <= i < |s| ==> f(s[i]) == g(s[i])
    ensures Keep(s, f) == Keep(s, g)
  {
    if s != [] {
      KeepAgrees(s[..|s| - 1], f, g);
    }
  }

  /** Every entry is kept exactly when every entry passes. */
  lemma {:induction false} KeepAll<T>(s: seq<T>, f: T -> bool)
    ensures |Keep(s, f)| == |s| <==> forall i :: 0 <= i < |s| ==> f(s[i])
  {
    if s != [] {
      var init := s[..|s| - 1];
      KeepAll(init, f);
      if |Keep(s, f)| == |s| {
        assert f(s[|s| - 1]);
        assert forall i :: 0 <= i < |init| ==> f(init[i]);
      }
    }
  }

  /** Keeping entries of a duplicate-free list gives a duplicate-free list. */
  lemma {:induction false} KeepKeepsDistinct<T>(s: seq<T>, f: T -> bool)
    requires NoDuplicates(s)
    ensures NoDuplicates(Keep(s, f))
  {
    if s != [] {
      var init := s[..|s| - 1];
      var last := s[|s| - 1];
      KeepKeepsDistinct(init, f);
      KeepMembers(init, f, last);
      assert last !in init;
    }
  }

  /** List.Remove: s without its first occurrence of x; s itself when x does not occur. */
  function RemoveFirst<T(==)>(s: seq<T>, x: T): (r: seq<T>)
    ensures multiset(r) == multiset(s) - multiset{x}
  {
    if s == [] then []
    else
      assert s == [s[0]] + s[1..];
      if s[0] == x then s[1..] else [s[0]] + RemoveFirst(s[1..], x)
  }

  predicate NoDuplicates<T(==)>(s: seq<T>) {
    forall i, j :: 0 <= i < j < |s| ==> s[i] != s[j]
  }

  /** Removing the first occurrence from a duplicate-free list removes every occurrence,
      and what is left is still duplicate-free. */
  lemma RemoveFirstFromDistinct<T>(s: seq<T>, x: T)
    requires NoDuplicates(s)
    ensures NoDuplicates(RemoveFirst(s, x))
    ensures forall y :: y in RemoveFirst(s, x) <==> y in s && y != x
  {
    var r := RemoveFirst(s, x);
    assert forall y :: y in r <==> y in multiset(r);
    assert forall y :: y in s ==> multiset(s)[y] == 1 by {
      forall y | y in s
        ensures multiset(s)[y] == 1
      {
        DistinctCountsOnce(s, y);
      }
    }
    forall i, j | 0 <= i < j < |r|
      ensures r[i] != r[j]
    {
      if r[i] == r[j] {
        TwiceCountsTwice(r, i, j);
        assert false;
      }
    }
  }

  lemma {:induction false} DistinctCountsOnce<T>(s: seq<T>, y: T)
    requires NoDuplicates(s) && y in s
    ensures multiset(s)[y] == 1
  {
    assert s == [s[0]] + s[1..];
    if s[0] == y {
      assert y !in s[1..];
    } else {
      DistinctCountsOnce(s[1..], y);
    }
  }

  lemma {:induction false} TwiceCountsTwice<T>(s: seq<T>, i: int, j: int)
    requires 0 <= i < j < |s| && s[i] == s[j]
    ensures multiset(s)[s[i]] >= 2
  {
    assert s == s[..i] + [s[i]] + s[i + 1..j] + [s[j]] + s[j + 1..];
  }

  /** Registering an unused entry and then removing it gives the list back. */
  lemma {:induction false} RemoveFirstUndoesAppend<T>(s: seq<T>, x: T)
    requires x !in s
    ensures RemoveFirst(s + [x], x) == s
  {
    if s != [] {
      assert (s + [x])[1..] == s[1..] + [x];
      RemoveFirstUndoesAppend(s[1..], x);
      assert s == [s[0]] + s[1..];
    }
  }
}

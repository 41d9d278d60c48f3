/** The favourites list: toggling a company adds it at the end when it is
    absent and removes its first occurrence when it is present. The list
    is restored from browser storage, so it is not assumed duplicate-free. */
module Favorites {
  import opened Seqs

  /** `s` without its first occurrence of `x`. */
  function RemoveFirst<T(==)>(s: seq<T>, x: T): (r: seq<T>)
    ensures x !in s ==> r == s
    ensures x in s ==> |r| == |s| - 1
  {
    if s == [] then []
    else if s[0] == x then s[1..]
    else [s[0]] + RemoveFirst(s[1..], x)
  }

  /** Removing the first occurrence of a present `x` takes exactly one copy
      of it out of the multiset of entries. */
  lemma {:induction false} RemoveFirstMultiset<T>(s: seq<T>, x: T)
    requires x in s
    ensures multiset(RemoveFirst(s, x)) + multiset{x} == multiset(s)
  {
    assert s == [s[0]] + s[1..];
    if s[0] != x {
      RemoveFirstMultiset(s[1..], x);
    }
  }

  /** The favourites after toggling `company`: one copy of it fewer when it
      is present, one more when it is absent. */
  function Toggled(favorites: seq<string>, company: string): (r: seq<string>)
    ensures multiset(r) == if company in favorites then multiset(favorites) - multiset{company}
                           else multiset(favorites) + multiset{company}
  {
    if company in favorites then
      RemoveFirstMultiset(favorites, company);
      RemoveFirst(favorites, company)
    else favorites + [company]
  }

  /** Removing the first occurrence is splicing out the element at `indexOf`. */
  lemma {:induction false} RemoveFirstIsSplice<T>(s: seq<T>, x: T)
    requires x in s
    ensures 0 <= IndexOf(s, x) < |s|
    ensures RemoveFirst(s, x) == s[..IndexOf(s, x)] + s[IndexOf(s, x) + 1..]
  {
    if s[0] != x {
      RemoveFirstIsSplice(s[1..], x);
      var k := IndexOf(s[1..], x);
      assert s[..k + 1] == [s[0]] + s[1..][..k];
      assert s[k + 2..] == s[1..][k + 1..];
    }
  }

  /** Toggling an absent company appends it; toggling a present one removes
      its first occurrence and keeps every other entry in order. */
  lemma ToggledSpec(favorites: seq<string>, company: string)
    ensures company !in favorites ==> Toggled(favorites, company) == favorites + [company]
    ensures company in favorites ==>
      exists i :: 0 <= i < |favorites| && favorites[i] == company && company !in favorites[..i]
        && Toggled(favorites, company) == favorites[..i] + favorites[i + 1..]
  {
    if company in favorites {
      RemoveFirstIsSplice(favorites, company);
      var i := IndexOf(favorites, company);
      assert favorites[i] == company && company !in favorites[..i];
    }
  }

  lemma {:induction false} RemoveFirstAppended<T>(s: seq<T>, x: T)
    requires x !in s
    ensures RemoveFirst(s + [x], x) == s
  {
    if s != [] {
      RemoveFirstAppended(s[1..], x);
      assert (s + [x])[1..] == s[1..] + [x];
    }
  }

  /** Toggling an absent company twice restores the exact original list. */
  lemma ToggleTwiceRestores(favorites: seq<string>, company: string)
    requires company !in favorites
    ensures Toggled(Toggled(favorites, company), company) == favorites
  {
    RemoveFirstAppended(favorites, company);
  }

  lemma {:induction false} RemoveFirstNoDup<T>(s: seq<T>, x: T)
    requires NoDup(s)
    ensures NoDup(RemoveFirst(s, x))
    ensures x !in RemoveFirst(s, x)
    ensures forall y :: y != x ==> (y in RemoveFirst(s, x) <==> y in s)
  {
    if s != [] {
      assert forall y :: y in s <==> y == s[0] || y in s[1..];
      if s[0] != x {
        RemoveFirstNoDup(s[1..], x);
        var rest := RemoveFirst(s[1..], x);
        assert s[0] !in s[1..];
        assert s[0] !in rest;
        assert forall j :: 0 < j < |[s[0]] + rest| ==> ([s[0]] + rest)[j] == rest[j - 1];
      }
    }
  }

  /** On a duplicate-free list, toggling flips the membership of the company
      alone and keeps the list duplicate-free. */
  lemma ToggleFlipsMembership(favorites: seq<string>, company: string)
    requires NoDup(favorites)
    ensures NoDup(Toggled(favorites, company))
    ensures company in Toggled(favorites, company) <==> company !in favorites
    ensures forall y :: y != company ==> (y in Toggled(favorites, company) <==> y in favorites)
  {
    if company in favorites {
      RemoveFirstNoDup(favorites, company);
    }
  }

  /** On a duplicate-free list, toggling twice restores the same favourites
      (a present company moves to the end). */
  lemma ToggleTwiceSameFavorites(favorites: seq<string>, company: string)
    requires NoDup(favorites)
    ensures multiset(Toggled(Toggled(favorites, company), company)) == multiset(favorites)
  {
    if company in favorites {
      RemoveFirstNoDup(favorites, company);
    } else {
      ToggleTwiceRestores(favorites, company);
    }
  }
}

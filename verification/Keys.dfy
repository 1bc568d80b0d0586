/** Composite keys "collectionID/documentID". */
module Keys {
  import opened Text

  function DocumentKey(collectionID: string, documentID: string): string {
    collectionID + "/" + documentID
  }

  predicate SlashFree(s: string) {
    '/' !in s
  }

  // The part before the first "/", or the whole key.
  function CollectionIDFromKey(key: string): string {
    if key == "" || key[0] == '/' then "" else [key[0]] + CollectionIDFromKey(key[1..])
  }

  method SplitCollectionID(key: string) returns (id: string)
    ensures id == CollectionIDFromKey(key)
    ensures SlashFree(id) && id <= key
    ensures id == key || key[|id|] == '/'
  {
    var i := 0;
    while i < |key|
      invariant 0 <= i <= |key|
      invariant SlashFree(key[..i])
      invariant key[..i] + CollectionIDFromKey(key[i..]) == CollectionIDFromKey(key)
    {
      if key[i] == '/' {
        return key[..i];
      }
      assert key[i..][1..] == key[i + 1..];
      assert key[..i + 1] == key[..i] + [key[i]];
      i := i + 1;
    }
    assert key[..i] == key;
    return key;
  }

  /** Splitting a key recovers the collection exactly when its id has no slash. */
  lemma {:induction false} SplitInvertsIffSlashFree(collectionID: string, documentID: string)
    ensures CollectionIDFromKey(DocumentKey(collectionID, documentID)) == collectionID <==> SlashFree(collectionID)
  {
    var key := DocumentKey(collectionID, documentID);
    if collectionID != "" && collectionID[0] != '/' {
      SplitInvertsIffSlashFree(collectionID[1..], documentID);
      assert key[1..] == DocumentKey(collectionID[1..], documentID);
      assert collectionID == [collectionID[0]] + collectionID[1..];
    }
  }

  /** With slash-free collections a key names one document. */
  lemma {:induction false} KeyInjective(c1: string, d1: string, c2: string, d2: string)
    requires SlashFree(c1) && SlashFree(c2)
    ensures DocumentKey(c1, d1) == DocumentKey(c2, d2) <==> c1 == c2 && d1 == d2
  {
    SplitInvertsIffSlashFree(c1, d1);
    SplitInvertsIffSlashFree(c2, d2);
    if c1 == c2 {
      KeyInjectiveInCollection(c1, d1, d2);
    }
  }

  /** Inside one collection no hypothesis is needed. */
  lemma {:induction false} KeyInjectiveInCollection(c: string, d1: string, d2: string)
    ensures DocumentKey(c, d1) == DocumentKey(c, d2) <==> d1 == d2
  {
    assert DocumentKey(c, d1)[|c| + 1..] == d1;
    assert DocumentKey(c, d2)[|c| + 1..] == d2;
  }

  predicate Nested(outer: string, inner: string) {
    outer + "/" <= inner
  }

  lemma {:induction false} NestedHasSlash(outer: string, inner: string)
    ensures Nested(outer, inner) ==> !SlashFree(inner)
  {
    if Nested(outer, inner) {
      assert inner[|outer|] == '/';
    }
  }

  /** Two collections can share a key exactly when one id continues the other behind a slash. */
  lemma {:induction false} KeysCollideIffNested(c1: string, c2: string)
    requires c1 != c2
    ensures (exists d1, d2 :: DocumentKey(c1, d1) == DocumentKey(c2, d2)) <==> Nested(c1, c2) || Nested(c2, c1)
  {
    forall d1, d2 | DocumentKey(c1, d1) == DocumentKey(c2, d2) ensures Nested(c1, c2) || Nested(c2, c1) {
      var key := DocumentKey(c1, d1);
      assert key[..|c1|] == c1 && key[|c1|] == '/' && key[..|c2|] == c2 && key[|c2|] == '/';
      if |c1| < |c2| {
        assert key[..|c1| + 1] == c1 + "/";
      } else if |c2| < |c1| {
        assert key[..|c2| + 1] == c2 + "/";
      }
    }
    if Nested(c1, c2) {
      assert DocumentKey(c1, c2[|c1| + 1..] + "/") == DocumentKey(c2, "");
    } else if Nested(c2, c1) {
      assert DocumentKey(c2, c1[|c2| + 1..] + "/") == DocumentKey(c1, "");
    }
  }

  /** A collection id with a slash always shares a key with another collection. */
  lemma {:induction false} SlashMakesKeysCollide(c: string, d: string)
    requires !SlashFree(c)
    ensures exists c', d' :: c' != c && SlashFree(c') && DocumentKey(c', d') == DocumentKey(c, d)
  {
    var c' := SplitWitness(c);
    var d' := c[|c'| + 1..] + "/" + d;
    assert DocumentKey(c', d') == DocumentKey(c, d);
  }

  lemma {:induction false} SplitWitness(c: string) returns (c': string)
    requires !SlashFree(c)
    ensures SlashFree(c') && c' + "/" <= c
  {
    if c[0] == '/' {
      c' := "";
    } else {
      var rest := SplitWitness(c[1..]);
      c' := [c[0]] + rest;
      assert c == [c[0]] + c[1..];
    }
  }

  /** The prefix scan of a collection finds its own documents and no others. */
  lemma {:induction false} PrefixIffSameCollection(c: string, owner: string, d: string)
    requires SlashFree(c) && SlashFree(owner)
    ensures HasPrefix(DocumentKey(owner, d), c + "/") <==> owner == c
  {
    var key := DocumentKey(owner, d);
    if HasPrefix(key, c + "/") {
      var rest := key[|c| + 1..];
      assert key == DocumentKey(c, rest);
      KeyInjective(owner, d, c, rest);
    }
  }

  /** What the prefix scan finds for arbitrary ids: also collections nested under c, or documents that look nested. */
  lemma {:induction false} PrefixExactly(c: string, owner: string, d: string)
    ensures HasPrefix(DocumentKey(owner, d), c + "/") <==>
            || owner == c
            || c + "/" <= owner
            || (owner + "/" <= c && c[|owner| + 1..] + "/" <= d)
  {
    var key, prefix := DocumentKey(owner, d), c + "/";
    assert key[..|owner|] == owner && key[|owner|] == '/' && key[|owner| + 1..] == d;
    if owner == c {
      assert key[..|prefix|] == prefix;
    } else if |owner| > |c| {
      assert key[..|prefix|] == owner[..|prefix|];
    } else if owner + "/" <= c {
      var rest := c[|owner| + 1..] + "/";
      assert prefix == owner + "/" + rest;
      assert rest <= d ==> key == prefix + d[|rest|..];
      assert HasPrefix(key, prefix) ==> rest == d[..|rest|];
    }
  }
}

/** Tag normalization: trimmed, non-empty, without duplicates, sorted. */
module Tags {
  import opened Sorting
  import opened Text

  function Identity(s: string): string { s }

  function SortStrings(xs: seq<string>): seq<string> {
    SortBy(Identity, xs)
  }

  // The tags a list of inputs stands for.
  ghost function TagSet(tags: seq<string>): set<string> {
    set i | 0 <= i < |tags| && TrimSpace(tags[i]) != "" :: TrimSpace(tags[i])
  }

  // One pass over the input: keep each non-empty trimmed tag the first time it is seen.
  function Dedupe(tags: seq<string>, seen: set<string>): seq<string> {
    if tags == [] then []
    else
      var t := TrimSpace(tags[0]);
      if t == "" || t in seen then Dedupe(tags[1..], seen)
      else [t] + Dedupe(tags[1..], seen + {t})
  }

  function NormalizeTags(tags: seq<string>): seq<string> {
    SortStrings(Dedupe(tags, {}))
  }

  ghost predicate Normalized(tags: seq<string>) {
    && StrictlyAscending(Identity, tags)
    && forall t :: t in tags ==> t != "" && Trimmed(t)
  }

  lemma {:induction false} DedupeCollects(tags: seq<string>, seen: set<string>)
    ensures forall t :: t in Dedupe(tags, seen) <==> t in TagSet(tags) - seen
    ensures KeysDistinct(Identity, Dedupe(tags, seen))
  {
    if tags != [] {
      var t, rest := TrimSpace(tags[0]), tags[1..];
      assert TagSet(tags) == TagSet(rest) + (if t == "" then {} else {t}) by {
        forall x | x in TagSet(rest) ensures x in TagSet(tags) {
          var i :| 0 <= i < |rest| && TrimSpace(rest[i]) == x;
          assert tags[i + 1] == rest[i];
        }
        forall x | x in TagSet(tags) ensures x == t || x in TagSet(rest) {
          var i :| 0 <= i < |tags| && TrimSpace(tags[i]) == x;
          assert i != 0 ==> rest[i - 1] == tags[i];
        }
      }
      if t == "" || t in seen {
        DedupeCollects(rest, seen);
      } else {
        DedupeCollects(rest, seen + {t});
        assert forall j :: 0 <= j < |Dedupe(rest, seen + {t})| ==>
               Dedupe(rest, seen + {t})[j] in TagSet(rest) - (seen + {t});
      }
    }
  }

  /** The result is strictly sorted and holds exactly the trimmed non-empty inputs. */
  lemma {:induction false} NormalizeTagsCollects(tags: seq<string>)
    ensures Normalized(NormalizeTags(tags))
    ensures forall t :: t in NormalizeTags(tags) <==> t in TagSet(tags)
  {
    var ds := Dedupe(tags, {});
    DedupeCollects(tags, {});
    SortByStrict(Identity, ds);
    forall t ensures t in NormalizeTags(tags) <==> t in ds {
      assert t in NormalizeTags(tags) <==> t in multiset(NormalizeTags(tags));
    }
    forall t | t in TagSet(tags) ensures t != "" && Trimmed(t) {
      var i :| 0 <= i < |tags| && TrimSpace(tags[i]) == t;
      TrimSpaceCuts(tags[i]);
    }
  }

  /** Two inputs normalize to the same list exactly when they stand for the same tags. */
  lemma {:induction false} NormalizeTagsCanonical(a: seq<string>, b: seq<string>)
    ensures NormalizeTags(a) == NormalizeTags(b) <==> TagSet(a) == TagSet(b)
  {
    NormalizeTagsCollects(a);
    NormalizeTagsCollects(b);
    if TagSet(a) == TagSet(b) {
      StrictlyAscendingUnique(Identity, NormalizeTags(a), NormalizeTags(b));
    } else {
      var t :| t in TagSet(a) <==> t !in TagSet(b);
    }
  }

  /** Normalizing leaves exactly the normalized lists alone. */
  lemma {:induction false} NormalizeTagsFixpoint(tags: seq<string>)
    ensures NormalizeTags(tags) == tags <==> Normalized(tags)
    ensures NormalizeTags(NormalizeTags(tags)) == NormalizeTags(tags)
  {
    NormalizeTagsCollects(tags);
    var once := NormalizeTags(tags);
    NormalizedKeepsTags(once);
    NormalizeTagsCollects(once);
    StrictlyAscendingUnique(Identity, once, NormalizeTags(once));
    if Normalized(tags) {
      NormalizedKeepsTags(tags);
      StrictlyAscendingUnique(Identity, tags, once);
    }
  }

  lemma {:induction false} NormalizedKeepsTags(tags: seq<string>)
    requires Normalized(tags)
    ensures forall t :: t in tags <==> t in TagSet(tags)
  {
    forall t | t in tags ensures t in TagSet(tags) {
      var i :| 0 <= i < |tags| && tags[i] == t;
      TrimSpaceFixes(t);
    }
    forall t | t in TagSet(tags) ensures t in tags {
      var i :| 0 <= i < |tags| && TrimSpace(tags[i]) == t;
      TrimSpaceFixes(tags[i]);
    }
  }

  // The loop of the service, into a fresh slice.
  method NormalizeSlice(tags: seq<string>) returns (out: array<string>)
    ensures fresh(out)
    ensures out[..] == NormalizeTags(tags)
  {
    var kept: seq<string>, seen: set<string> := [], {};
    for i := 0 to |tags|
      invariant kept + Dedupe(tags[i..], seen) == Dedupe(tags, {})
    {
      var t := TrimSpace(tags[i]);
      assert tags[i..][0] == tags[i] && tags[i..][1..] == tags[i + 1..];
      if t != "" && t !in seen {
        seen := seen + {t};
        kept := kept + [t];
      }
    }
    assert Dedupe(tags[|tags|..], seen) == [] && kept + [] == kept;
    var sorted := SortStrings(kept);
    out := new string[|sorted|](i requires 0 <= i < |sorted| => sorted[i]);
  }

  // AND semantics: every wanted tag is present.
  predicate HasAll(tags: seq<string>, want: seq<string>) {
    forall t :: t in want ==> t in tags
  }

  method HasAllTags(tags: array<string>, want: seq<string>) returns (yes: bool)
    ensures yes == HasAll(tags[..], want)
  {
    var present: set<string> := {};
    for i := 0 to tags.Length
      invariant forall t :: t in present <==> t in tags[..i]
    {
      assert tags[..i + 1] == tags[..i] + [tags[i]];
      present := present + {tags[i]};
    }
    assert tags[..tags.Length] == tags[..];
    for i := 0 to |want|
      invariant forall j :: 0 <= j < i ==> want[j] in tags[..]
    {
      if want[i] !in present {
        return false;
      }
    }
    return true;
  }
}

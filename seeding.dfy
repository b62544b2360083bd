/**
 * The start-up step that makes sure the twelve default categories exist:
 * a create-if-absent by name, checked against the names present before it
 * starts.
 */
module Seeding {
  import opened Records

  const DefaultCategories: seq<string> := [
    "Food & Dining", "Transportation", "Housing", "Utilities",
    "Entertainment", "Shopping", "Personal Care", "Health & Fitness",
    "Education", "Travel", "Gifts & Donations", "Other"
  ]

  ghost predicate Distinct(names: seq<string>) {
    forall i, j :: 0 <= i < j < |names| ==> names[i] != names[j]
  }

  /** The names of `names` that are not in `existing`, in order: those the loop adds. */
  function MissingFrom(names: seq<string>, existing: set<string>): (r: seq<string>)
    ensures |r| <= |names|
  {
    if names == [] then []
    else
      var rest := MissingFrom(names[..|names| - 1], existing);
      if names[|names| - 1] !in existing then rest + [names[|names| - 1]] else rest
  }

  /** A name is kept exactly when it is listed and absent. */
  lemma {:induction false} MissingFromMembers(names: seq<string>, existing: set<string>)
    ensures forall n :: n in MissingFrom(names, existing) <==> n in names && n !in existing
  {
    if names != [] {
      var k := |names| - 1;
      MissingFromMembers(names[..k], existing);
      assert names == names[..k] + [names[k]];
    }
  }

  /** The defaults missing from `existing`, in the order of the list. */
  function MissingDefaults(existing: set<string>): (r: seq<string>)
    ensures forall n :: n in r <==> n in DefaultCategories && n !in existing
  {
    MissingFromMembers(DefaultCategories, existing);
    MissingFrom(DefaultCategories, existing)
  }

  lemma DefaultsDistinct()
    ensures |DefaultCategories| == 12 && Distinct(DefaultCategories)
  {
    forall i, j | 0 <= i < j < 12 ensures DefaultCategories[i] != DefaultCategories[j] {
      assert DefaultCategories[i][0] != DefaultCategories[j][0] || |DefaultCategories[i]| != |DefaultCategories[j]|;
    }
  }

  lemma {:induction false} MissingFromDistinct(names: seq<string>, existing: set<string>)
    requires Distinct(names)
    ensures Distinct(MissingFrom(names, existing))
  {
    if names != [] {
      var n := |names| - 1;
      MissingFromDistinct(names[..n], existing);
      MissingFromMembers(names[..n], existing);
      assert names[n] !in names[..n];
    }
  }

  /**
   * After seeding every default name is present; the names added are exactly
   * the defaults that were absent, each once and none of them present before.
   */
  lemma SeedAddsExactlyTheMissing(existing: set<string>)
    ensures forall n :: n in DefaultCategories ==> n in existing || n in MissingDefaults(existing)
    ensures forall n :: n in MissingDefaults(existing) <==> n in DefaultCategories && n !in existing
    ensures Distinct(MissingDefaults(existing))
  {
    DefaultsDistinct();
    MissingFromDistinct(DefaultCategories, existing);
    MissingFromMembers(DefaultCategories, existing);
  }

  /** Nothing is kept when every listed name is already present. */
  lemma {:induction false} MissingFromAllPresent(names: seq<string>, existing: set<string>)
    requires forall n :: n in names ==> n in existing
    ensures MissingFrom(names, existing) == []
  {
    if names != [] {
      var k := |names| - 1;
      assert names[k] in names;
      forall n | n in names[..k] ensures n in existing {
        assert n in names;
      }
      MissingFromAllPresent(names[..k], existing);
    }
  }

  /** Running the step again, over the names it left behind, adds nothing. */
  lemma SeedIdempotent(existing: set<string>)
    ensures MissingDefaults(existing + (set n | n in MissingDefaults(existing))) == []
  {
    var after := existing + (set n | n in MissingDefaults(existing));
    MissingFromMembers(DefaultCategories, existing);
    MissingFromAllPresent(DefaultCategories, after);
  }

  /** The rows the loop adds for `names`, numbered from `firstId` on. */
  function NewCategories(names: seq<string>, firstId: int): (r: seq<Category>)
    ensures |r| == |names|
    ensures forall i :: 0 <= i < |r| ==> r[i] == Category(firstId + i, names[i])
  {
    if names == [] then []
    else NewCategories(names[..|names| - 1], firstId) + [Category(firstId + |names| - 1, names[|names| - 1])]
  }

  lemma NewCategoriesSnoc(names: seq<string>, n: string, firstId: int)
    ensures NewCategories(names + [n], firstId) == NewCategories(names, firstId) + [Category(firstId + |names|, n)]
  {
    assert (names + [n])[..|names|] == names;
  }

  /** One more turn of the loop: the next name is added, with the next id, only when absent. */
  lemma MissingFromStep(names: seq<string>, i: nat, existing: set<string>, firstId: int)
    requires i < |names|
    ensures names[i] in existing ==> MissingFrom(names[..i + 1], existing) == MissingFrom(names[..i], existing)
    ensures names[i] !in existing ==>
              MissingFrom(names[..i + 1], existing) == MissingFrom(names[..i], existing) + [names[i]]
              && NewCategories(MissingFrom(names[..i + 1], existing), firstId)
                 == NewCategories(MissingFrom(names[..i], existing), firstId)
                    + [Category(firstId + |MissingFrom(names[..i], existing)|, names[i])]
  {
    assert names[..i + 1][..i] == names[..i];
    if names[i] !in existing {
      NewCategoriesSnoc(MissingFrom(names[..i], existing), names[i], firstId);
    }
  }

  /**
   * Adding rows for distinct new names, with ids from a counter above every
   * existing id, keeps ids and names unique.
   */
  lemma AppendKeepsUnique(cats: seq<Category>, names: seq<string>, firstId: int)
    requires IdsDistinct(cats) && NamesDistinct(cats)
    requires forall c :: c in cats ==> c.id < firstId
    requires Distinct(names) && forall n :: n in names ==> n !in NamesOf(cats)
    ensures IdsDistinct(cats + NewCategories(names, firstId))
    ensures NamesDistinct(cats + NewCategories(names, firstId))
    ensures forall c :: c in cats + NewCategories(names, firstId) ==> c.id < firstId + |names|
  {
    var r := cats + NewCategories(names, firstId);
    forall i, j | 0 <= i < j < |r| ensures r[i].id != r[j].id && r[i].name != r[j].name {
      if j >= |cats| && i < |cats| {
        assert cats[i] in cats;
        assert r[j].name == names[j - |cats|];
        assert names[j - |cats|] in names;
      }
    }
  }
}

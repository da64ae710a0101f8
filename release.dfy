/** The helpers of the new-release task `new_release_posting`
    (cogs/utility.py:122-182): whether a game has come out, the name and the
    store page its announcement uses, and the cap on the description length. */
module Release {
  import opened Py

  // ---------------------------------------------------------------------
  // Released or not (lines 129-142)
  // ---------------------------------------------------------------------

  /** Some region has a release date, and that date is before `now`. */
  ghost predicate Released(dates: map<string, Option<int>>, now: int) {
    exists k :: k in dates && dates[k].Some? && dates[k].value < now
  }

  /** The loop over `release_dates.items()`: a region without a date is
      skipped, and any date before `now` sets `nowReleased`. The regions are
      visited in no particular order, which the result does not depend on. */
  method IsReleased(dates: map<string, Option<int>>, now: int) returns (nowReleased: bool)
    ensures nowReleased <==> Released(dates, now)
  {
    nowReleased := false;
    var left := dates.Keys;
    while left != {}
      invariant left <= dates.Keys
      invariant nowReleased <==> exists k :: k in dates.Keys - left && dates[k].Some? && dates[k].value < now
      decreases |left|
    {
      var key :| key in left;
      var value := dates[key];
      left := left - {key};
      if value.None? {
        continue;
      }
      if value.value < now {
        nowReleased := true;
      }
    }
  }

  // ---------------------------------------------------------------------
  // The announced name (lines 144-151)
  // ---------------------------------------------------------------------

  /** The keys the name chain reads: `NA` always, `EU` when the NA title is
      `None`, `JP` when the EU title is `None` as well. */
  predicate NameKeys(titles: map<string, Option<string>>) {
    "NA" in titles && (titles["NA"].None? ==> "EU" in titles && (titles["EU"].None? ==> "JP" in titles))
  }

  /** The chain of lines 144-151. A title counts when it is not `None`, even if empty. */
  function ReleaseName(titles: map<string, Option<string>>): (name: Option<string>)
    requires NameKeys(titles)
    ensures name.None? <==> titles["NA"].None? && titles["EU"].None? && titles["JP"].None?
  {
    if titles["NA"] != None then titles["NA"]
    else if titles["EU"] != None then titles["EU"]
    else titles["JP"]
  }

  /** The first region of `order` whose title is not `None`, in `titles`. */
  function FirstSet(order: seq<string>, titles: map<string, Option<string>>): (r: Option<nat>)
    ensures r.Some? ==> r.value < |order| && order[r.value] in titles && titles[order[r.value]].Some?
    ensures r.Some? ==> forall j :: 0 <= j < r.value ==> order[j] !in titles || titles[order[j]].None?
    ensures r.None? ==> forall j :: 0 <= j < |order| ==> order[j] !in titles || titles[order[j]].None?
    decreases |order|
  {
    if order == [] then None
    else if order[0] in titles && titles[order[0]].Some? then Some(0)
    else match FirstSet(order[1..], titles)
      case None => None
      case Some(i) => Some(i + 1)
  }

  /** The name is the title of the first of NA, EU and JP that has one, and
      `None` when none of them has. */
  lemma ReleaseNamePriority(titles: map<string, Option<string>>)
    requires NameKeys(titles)
    ensures var i := FirstSet(["NA", "EU", "JP"], titles);
      ReleaseName(titles) == if i.Some? then titles[["NA", "EU", "JP"][i.value]] else None
  {
    var order := ["NA", "EU", "JP"];
    assert order[1..] == ["EU", "JP"] && order[1..][1..] == ["JP"] && order[1..][1..][1..] == [];
  }

  // ---------------------------------------------------------------------
  // The store page (lines 153-165)
  // ---------------------------------------------------------------------

  /** The regions whose store pages are tried, best first. It is written as
      two halves joined so that the verifier unfolds `SiteKeys` and
      `FirstTruthy` over it one region at a time, as a proof asks, rather
      than all ten regions wherever the order appears. */
  const SiteOrder: seq<string> := ["US", "CA", "EU", "GB", "AU"] + ["NZ", "JP", "CH", "RU", "ZA"]

  /** The keys the chain reads: each region of `order` up to and including
      the first whose page is truthy. */
  predicate SiteKeys(order: seq<string>, websites: map<string, Option<string>>)
    decreases |order|
  {
    order == [] || (order[0] in websites && (!Truthy(websites[order[0]]) ==> SiteKeys(order[1..], websites)))
  }

  /** `SiteKeys` over the priority order, unfolded: each region's key is
      present once every region before it has no truthy page. */
  lemma SiteKeysChain(w: map<string, Option<string>>)
    requires SiteKeys(SiteOrder, w)
    ensures
      "US" in w && (!Truthy(w["US"]) ==>
        "CA" in w && (!Truthy(w["CA"]) ==>
          "EU" in w && (!Truthy(w["EU"]) ==>
            "GB" in w && (!Truthy(w["GB"]) ==>
              "AU" in w && (!Truthy(w["AU"]) ==>
                "NZ" in w && (!Truthy(w["NZ"]) ==>
                  "JP" in w && (!Truthy(w["JP"]) ==>
                    "CH" in w && (!Truthy(w["CH"]) ==>
                      "RU" in w && (!Truthy(w["RU"]) ==>
                        "ZA" in w)))))))))
  {
    var o := SiteOrder;
    assert o == ["US", "CA", "EU", "GB", "AU", "NZ", "JP", "CH", "RU", "ZA"];
    FirstTruthyStep(o, w);
    if !Truthy(w["US"]) {
      o := o[1..];
      assert o == ["CA", "EU", "GB", "AU", "NZ", "JP", "CH", "RU", "ZA"];
      FirstTruthyStep(o, w);
      if !Truthy(w["CA"]) {
        o := o[1..];
        assert o == ["EU", "GB", "AU", "NZ", "JP", "CH", "RU", "ZA"];
        FirstTruthyStep(o, w);
        if !Truthy(w["EU"]) {
          o := o[1..];
          assert o == ["GB", "AU", "NZ", "JP", "CH", "RU", "ZA"];
          FirstTruthyStep(o, w);
          if !Truthy(w["GB"]) {
            o := o[1..];
            assert o == ["AU", "NZ", "JP", "CH", "RU", "ZA"];
            FirstTruthyStep(o, w);
            if !Truthy(w["AU"]) {
              o := o[1..];
              assert o == ["NZ", "JP", "CH", "RU", "ZA"];
              FirstTruthyStep(o, w);
              if !Truthy(w["NZ"]) {
                o := o[1..];
                assert o == ["JP", "CH", "RU", "ZA"];
                FirstTruthyStep(o, w);
                if !Truthy(w["JP"]) {
                  o := o[1..];
                  assert o == ["CH", "RU", "ZA"];
                  FirstTruthyStep(o, w);
                  if !Truthy(w["CH"]) {
                    o := o[1..];
                    assert o == ["RU", "ZA"];
                    FirstTruthyStep(o, w);
                    if !Truthy(w["RU"]) {
                      o := o[1..];
                      assert o == ["ZA"];
                      FirstTruthyStep(o, w);
                    }
                  }
                }
              }
            }
          }
        }
      }
    }
  }

  /** The `if`/`elif` chain of lines 155-165, as written. */
  function SiteUrl(websites: map<string, Option<string>>): (url: Option<string>)
    requires SiteKeys(SiteOrder, websites)
    ensures url.None? || Truthy(url)
  {
    SiteKeysChain(websites);
    if Truthy(websites["US"]) then websites["US"]
    else if Truthy(websites["CA"]) then websites["CA"]
    else if Truthy(websites["EU"]) then websites["EU"]
    else if Truthy(websites["GB"]) then websites["GB"]
    else if Truthy(websites["AU"]) then websites["AU"]
    else if Truthy(websites["NZ"]) then websites["NZ"]
    else if Truthy(websites["JP"]) then websites["JP"]
    else if Truthy(websites["CH"]) then websites["CH"]
    else if Truthy(websites["RU"]) then websites["RU"]
    else if Truthy(websites["ZA"]) then websites["ZA"]
    else None
  }

  /** The page of the first region of `order` whose page is truthy. */
  function FirstTruthy(order: seq<string>, websites: map<string, Option<string>>): (url: Option<string>)
    requires SiteKeys(order, websites)
    ensures url.Some? ==> exists i :: 0 <= i < |order| && order[i] in websites && websites[order[i]] == url && Truthy(url)
    ensures url.None? ==> forall i :: 0 <= i < |order| ==> order[i] in websites && !Truthy(websites[order[i]])
    decreases |order|
  {
    if order == [] then None
    else if Truthy(websites[order[0]]) then websites[order[0]]
    else
      var r := FirstTruthy(order[1..], websites);
      assert forall i :: 1 <= i < |order| ==> order[i] == order[1..][i - 1];
      r
  }

  /** The chain picks the first truthy page in the priority order, and `None`
      when no region has one. */
  lemma SiteUrlPriority(websites: map<string, Option<string>>)
    requires SiteKeys(SiteOrder, websites)
    ensures SiteUrl(websites) == FirstTruthy(SiteOrder, websites)
  {
    var w := websites;
    var o := SiteOrder;
    FirstTruthyStep(o, w);
    if !Truthy(w["US"]) {
      var o1 := o[1..];
      assert o1 == ["CA", "EU", "GB", "AU", "NZ", "JP", "CH", "RU", "ZA"];
      FirstTruthyStep(o1, w);
      if !Truthy(w["CA"]) {
        var o2 := o1[1..];
        assert o2 == ["EU", "GB", "AU", "NZ", "JP", "CH", "RU", "ZA"];
        FirstTruthyStep(o2, w);
        if !Truthy(w["EU"]) {
          var o3 := o2[1..];
          assert o3 == ["GB", "AU", "NZ", "JP", "CH", "RU", "ZA"];
          FirstTruthyStep(o3, w);
          if !Truthy(w["GB"]) {
            var o4 := o3[1..];
            assert o4 == ["AU", "NZ", "JP", "CH", "RU", "ZA"];
            FirstTruthyStep(o4, w);
            if !Truthy(w["AU"]) {
              var o5 := o4[1..];
              assert o5 == ["NZ", "JP", "CH", "RU", "ZA"];
              FirstTruthyStep(o5, w);
              if !Truthy(w["NZ"]) {
                var o6 := o5[1..];
                assert o6 == ["JP", "CH", "RU", "ZA"];
                FirstTruthyStep(o6, w);
                if !Truthy(w["JP"]) {
                  var o7 := o6[1..];
                  assert o7 == ["CH", "RU", "ZA"];
                  FirstTruthyStep(o7, w);
                  if !Truthy(w["CH"]) {
                    var o8 := o7[1..];
                    assert o8 == ["RU", "ZA"];
                    FirstTruthyStep(o8, w);
                    if !Truthy(w["RU"]) {
                      var o9 := o8[1..];
                      assert o9 == ["ZA"];
                      FirstTruthyStep(o9, w);
                      assert o9[1..] == [];
                    }
                  }
                }
              }
            }
          }
        }
      }
    }
  }

  /** One step of `FirstTruthy`. */
  lemma FirstTruthyStep(order: seq<string>, websites: map<string, Option<string>>)
    requires order != [] && SiteKeys(order, websites)
    ensures order[0] in websites
    ensures !Truthy(websites[order[0]]) ==> SiteKeys(order[1..], websites)
    ensures FirstTruthy(order, websites)
      == if Truthy(websites[order[0]]) then websites[order[0]] else FirstTruthy(order[1..], websites)
  {
  }

  // ---------------------------------------------------------------------
  // The description cap (line 169)
  // ---------------------------------------------------------------------

  const MaxDescription: nat := 2048

  /** A description over 2048 characters keeps its first 2045 and gets `...`. */
  function Truncate(desc: string): (r: string)
    ensures |r| <= MaxDescription || r == desc
    ensures |desc| <= MaxDescription ==> r == desc
    ensures |desc| > MaxDescription ==> |r| == MaxDescription && r == desc[..MaxDescription - 3] + "..."
  {
    if |desc| > MaxDescription then desc[..MaxDescription - 3] + "..." else desc
  }

  /** Capping twice is capping once, and a capped text always fits. */
  lemma TruncateIdempotent(desc: string)
    ensures Truncate(Truncate(desc)) == Truncate(desc)
    ensures |Truncate(desc)| <= MaxDescription
  {
  }
}

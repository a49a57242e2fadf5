/**
 * The public tech-stack section: headline statistics computed from the list
 * of technologies, the tripled list that feeds the two scrolling marquee
 * rows, and the empty-state branch taken when there is nothing to show.
 */
module TechStack {
  import opened Wrappers
  import opened Text

  /** A row of the `technologies` table as the section receives it. */
  datatype Technology = Technology(
    id: string, name: string, category: string, iconUrl: Option<string>, orderIndex: int)

  /** One tile of the statistics grid. */
  datatype Stat = Stat(value: string, caption: string, color: string)

  /** What the section renders. */
  datatype StackView =
    | EmptyState
    | Populated(topRow: seq<Technology>, bottomRow: seq<Technology>, stats: seq<Stat>)

  // ---------------------------------------------------------------------
  // Category tests (`category.toLowerCase().includes(...)`)
  // ---------------------------------------------------------------------

  predicate IsFramework(t: Technology)
  {
    Contains(ToLower(t.category), "framework")
  }

  predicate MentionsLanguage(t: Technology)
  {
    Contains(ToLower(t.category), "language")
  }

  predicate MentionsLangage(t: Technology)
  {
    Contains(ToLower(t.category), "langage")
  }

  /** The languages tile's test: the English or the French spelling. */
  predicate IsLanguage(t: Technology)
  {
    MentionsLanguage(t) || MentionsLangage(t)
  }

  predicate MentionsBoth(t: Technology)
  {
    MentionsLanguage(t) && MentionsLangage(t)
  }

  // ---------------------------------------------------------------------
  // filter(...).length
  // ---------------------------------------------------------------------

  /** `Array.prototype.filter`: the elements satisfying `p`, in order. */
  function Filter(ts: seq<Technology>, p: Technology -> bool): (r: seq<Technology>)
    ensures |r| <= |ts|
    ensures forall k :: 0 <= k < |r| ==> p(r[k]) && r[k] in ts
  {
    if ts == [] then []
    else
      var init := ts[..|ts| - 1];
      var rest := Filter(init, p);
      assert forall k :: 0 <= k < |rest| ==> rest[k] in ts by {
        forall k | 0 <= k < |rest| ensures rest[k] in ts {
          var j :| 0 <= j < |init| && init[j] == rest[k];
          assert ts[j] == rest[k];
        }
      }
      rest + (if p(ts[|ts| - 1]) then [ts[|ts| - 1]] else [])
  }

  /** The positions of `ts` whose element satisfies `p`. */
  function Positions(ts: seq<Technology>, p: Technology -> bool): set<int>
  {
    set i | 0 <= i < |ts| && p(ts[i])
  }

  /** The filtered length is the number of positions satisfying `p`. */
  lemma {:induction false} FilterCountsPositions(ts: seq<Technology>, p: Technology -> bool)
    ensures |Filter(ts, p)| == |Positions(ts, p)|
  {
    if ts != [] {
      var n := |ts| - 1;
      var init := ts[..n];
      FilterCountsPositions(init, p);
      var before := Positions(init, p);
      assert Positions(ts, p) == before + (if p(ts[n]) then {n} else {}) by {
        forall i ensures i in Positions(ts, p) <==> i in before + (if p(ts[n]) then {n} else {}) {
          if 0 <= i < n { assert ts[i] == init[i]; }
        }
      }
      assert n !in before;
    }
  }

  /** Inclusion-exclusion between the two spellings, over any list. */
  lemma {:induction false} LanguageOverlap(ts: seq<Technology>)
    ensures |Filter(ts, IsLanguage)| + |Filter(ts, MentionsBoth)|
            == |Filter(ts, MentionsLanguage)| + |Filter(ts, MentionsLangage)|
  {
    if ts != [] {
      LanguageOverlap(ts[..|ts| - 1]);
    }
  }

  // ---------------------------------------------------------------------
  // The statistics tiles
  // ---------------------------------------------------------------------

  function FrameworkCount(ts: seq<Technology>): nat
  {
    |Filter(ts, IsFramework)|
  }

  function LanguageCount(ts: seq<Technology>): nat
  {
    |Filter(ts, IsLanguage)|
  }

  /** The four tiles, each count rendered as `${n}+`. */
  function Stats(ts: seq<Technology>): seq<Stat>
  {
    [ Stat(Decimal(|ts|) + "+", "Technologies", "violet"),
      Stat(Decimal(FrameworkCount(ts)) + "+", "Frameworks", "blue"),
      Stat(Decimal(LanguageCount(ts)) + "+", "Langages", "purple"),
      Stat("\U{221E}", "Apprentissage", "indigo") ]
  }

  /** Reads a tile value of the form `<digits>+` back as a number. */
  function ReadCount(v: string): Option<nat>
  {
    if |v| >= 2 && v[|v| - 1] == '+' && forall i :: 0 <= i < |v| - 1 ==> IsDigit(v[i])
    then Some(ParseDecimal(v[..|v| - 1]))
    else None
  }

  lemma ReadCountOfDecimal(n: nat)
    ensures ReadCount(Decimal(n) + "+") == Some(n)
  {
    var v := Decimal(n) + "+";
    assert v[..|v| - 1] == Decimal(n);
    ParseDecimalOfDecimal(n);
  }

  /** The first tile shows the number of technologies, the second the number
      whose category mentions "framework", the third the number whose
      category mentions "language" or "langage"; the last is the literal ∞. */
  lemma StatsShowCounts(ts: seq<Technology>)
    ensures |Stats(ts)| == 4
    ensures ReadCount(Stats(ts)[0].value) == Some(|ts|)
    ensures ReadCount(Stats(ts)[1].value) == Some(|Positions(ts, IsFramework)|)
    ensures ReadCount(Stats(ts)[2].value) == Some(|Positions(ts, IsLanguage)|)
    ensures ReadCount(Stats(ts)[3].value) == None
  {
    var st := Stats(ts);
    ReadCountOfDecimal(|ts|);
    ReadCountOfDecimal(FrameworkCount(ts));
    ReadCountOfDecimal(LanguageCount(ts));
    FilterCountsPositions(ts, IsFramework);
    FilterCountsPositions(ts, IsLanguage);
    assert st[3].value == "\U{221E}";
  }

  /** Each partial count is at most the number of technologies, and a
      category that mentions both spellings is counted once. */
  lemma CountBounds(ts: seq<Technology>)
    ensures FrameworkCount(ts) <= |ts| && LanguageCount(ts) <= |ts|
    ensures LanguageCount(ts) == |Filter(ts, MentionsLanguage)| + |Filter(ts, MentionsLangage)|
                                 - |Filter(ts, MentionsBoth)|
  {
    LanguageOverlap(ts);
  }

  // ---------------------------------------------------------------------
  // Marquee and the rendered view
  // ---------------------------------------------------------------------

  lemma ModFirst(i: int, n: int) requires 0 <= i < n ensures i % n == i {}
  lemma ModSecond(i: int, n: int) requires 0 < n <= i < 2 * n ensures i % n == i - n {}
  lemma ModThird(i: int, n: int) requires 0 < n && 2 * n <= i < 3 * n ensures i % n == i - 2 * n {}

  /** `[...technologies, ...technologies, ...technologies]`: three times as
      long, and position `i` holds `technologies[i mod n]`. */
  function Marquee(ts: seq<Technology>): (r: seq<Technology>)
    ensures |r| == 3 * |ts|
    ensures forall i :: 0 <= i < |r| ==> r[i] == ts[i % |ts|]
  {
    var r := ts + ts + ts;
    var n := |ts|;
    assert forall i :: 0 <= i < |r| ==> r[i] == ts[i % n] by {
      forall i | 0 <= i < |r| ensures r[i] == ts[i % n] {
        if i < n {
          ModFirst(i, n);
        } else if i < 2 * n {
          ModSecond(i, n);
          assert r[i] == ts[i - n];
        } else {
          ModThird(i, n);
          assert r[i] == ts[i - 2 * n];
        }
      }
    }
    r
  }

  /** The section: the empty-state message for an empty list, otherwise two
      marquee rows and the statistics grid. */
  function Render(ts: seq<Technology>): StackView
  {
    if |ts| == 0 then EmptyState else Populated(Marquee(ts), Marquee(ts), Stats(ts))
  }

  /** The empty state is shown exactly when there are no technologies; when
      it is not, each marquee row cycles through the list three times. */
  lemma RenderBranches(ts: seq<Technology>)
    ensures Render(ts).EmptyState? <==> |ts| == 0
    ensures Render(ts).Populated? ==>
              && |Render(ts).topRow| == 3 * |ts| && Render(ts).bottomRow == Render(ts).topRow
              && (forall i :: 0 <= i < 3 * |ts| ==> Render(ts).topRow[i] == ts[i % |ts|])
              && ReadCount(Render(ts).stats[0].value) == Some(|ts|)
  {
    if |ts| > 0 {
      StatsShowCounts(ts);
    }
  }
}

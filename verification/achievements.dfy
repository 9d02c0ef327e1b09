/** The achievement panel of src/components/shared/AchievementSystem.tsx: the category
    filter, the points total, the progress of each achievement, and the "left to complete"
    line. The three lists it reads are fetched data and are parameters here. Progress is a
    JavaScript number, so a division by a zero threshold gives the non-finite values it
    gives there. */
module Achievements {
  import opened Options

  const AllCategories: string := "all"
  const ProfileComplete: string := "profile_complete"

  datatype Requirement = Requirement(kind: string, threshold: real)

  datatype Achievement = Achievement(id: string, category: string, points: int, requirement: Requirement)

  datatype UserAchievement = UserAchievement(achievementId: string, achievement: Achievement)

  datatype ProfileStats = ProfileStats(completenessScore: real)

  // ---------------------------------------------------------------- filter

  /** `achievements.filter(a => a.category === category)`. */
  function OfCategory(xs: seq<Achievement>, category: string): (r: seq<Achievement>)
    ensures |r| <= |xs|
    ensures forall i :: 0 <= i < |r| ==> r[i].category == category
    ensures forall a :: a in r <==> a in xs && a.category == category
    decreases |xs|
  {
    if xs == [] then []
    else if xs[0].category == category then [xs[0]] + OfCategory(xs[1..], category)
    else OfCategory(xs[1..], category)
  }

  /** The list shown for the selected category button: everything for "all", otherwise the
      achievements of that category in their fetched order. */
  function Filtered(xs: seq<Achievement>, selected: string): (r: seq<Achievement>)
    ensures selected == AllCategories ==> r == xs
    ensures selected != AllCategories ==> forall a :: a in r <==> a in xs && a.category == selected
    ensures selected != AllCategories ==> r == OfCategory(xs, selected)
  {
    if selected == AllCategories then xs else OfCategory(xs, selected)
  }

  /** Filtering keeps order: it distributes over concatenation. */
  lemma {:induction false} OfCategoryAppend(a: seq<Achievement>, b: seq<Achievement>, category: string)
    ensures OfCategory(a + b, category) == OfCategory(a, category) + OfCategory(b, category)
    decreases |a|
  {
    if a == [] {
      assert a + b == b;
    } else {
      assert (a + b)[1..] == a[1..] + b;
      OfCategoryAppend(a[1..], b, category);
    }
  }

  /** Filtering twice by the same category is filtering once, so pressing the selected
      category button again shows the same list. */
  lemma {:induction false} OfCategoryIdempotent(xs: seq<Achievement>, category: string)
    ensures OfCategory(OfCategory(xs, category), category) == OfCategory(xs, category)
    decreases |xs|
  {
    if xs != [] {
      OfCategoryIdempotent(xs[1..], category);
      if xs[0].category == category {
        var rest := OfCategory(xs[1..], category);
        assert ([xs[0]] + rest)[1..] == rest;
      }
    }
  }

  // ---------------------------------------------------------------- points

  /** `userAchievements.reduce((sum, ua) => sum + ua.achievement.points, 0)`, a left fold. */
  function Reduce(uas: seq<UserAchievement>, acc: int): int
    decreases |uas|
  {
    if uas == [] then acc else Reduce(uas[1..], acc + uas[0].achievement.points)
  }

  /** The points of the unlocked achievements, summed from the right: the reference
      definition of the total. */
  function Sum(uas: seq<UserAchievement>): int
    decreases |uas|
  {
    if uas == [] then 0 else uas[0].achievement.points + Sum(uas[1..])
  }

  lemma {:induction false} ReduceIsSum(uas: seq<UserAchievement>, acc: int)
    ensures Reduce(uas, acc) == acc + Sum(uas)
    decreases |uas|
  {
    if uas != [] {
      ReduceIsSum(uas[1..], acc + uas[0].achievement.points);
    }
  }

  lemma {:induction false} SumAppend(a: seq<UserAchievement>, b: seq<UserAchievement>)
    ensures Sum(a + b) == Sum(a) + Sum(b)
    decreases |a|
  {
    if a == [] {
      assert a + b == b;
    } else {
      assert (a + b)[1..] == a[1..] + b;
      SumAppend(a[1..], b);
    }
  }

  /** The header's total: the points of every unlocked achievement added up. */
  function TotalPoints(uas: seq<UserAchievement>): (r: int)
    ensures r == Sum(uas)
  {
    ReduceIsSum(uas, 0);
    Reduce(uas, 0)
  }

  /** Unlocking one more achievement adds exactly its points to the total. */
  lemma TotalPointsSnoc(uas: seq<UserAchievement>, ua: UserAchievement)
    ensures TotalPoints(uas + [ua]) == TotalPoints(uas) + ua.achievement.points
  {
    SumAppend(uas, [ua]);
    assert [ua][1..] == [];
  }

  /** With no negative point values the total is never negative. */
  lemma {:induction false} TotalPointsNonNegative(uas: seq<UserAchievement>)
    requires forall i :: 0 <= i < |uas| ==> uas[i].achievement.points >= 0
    ensures TotalPoints(uas) >= 0
    decreases |uas|
  {
    if uas != [] {
      TotalPointsNonNegative(uas[1..]);
    }
  }

  // -------------------------------------------------------------- progress

  /** A JavaScript number as progress can produce it. */
  datatype Progress = Percent(value: real) | NotANumber | MinusInfinity

  /** `new Set(userAchievements.map(ua => ua.achievementId))`. */
  function UnlockedIds(uas: seq<UserAchievement>): (r: set<string>)
    ensures forall id :: id in r <==> exists i :: 0 <= i < |uas| && uas[i].achievementId == id
  {
    set i | 0 <= i < |uas| :: uas[i].achievementId
  }

  /** `Math.min(score / threshold * 100, 100)` in JavaScript numbers: a zero threshold
      divides to +Infinity, NaN or -Infinity by the sign of the score, and `Math.min` passes
      NaN through. */
  function CappedRatio(score: real, threshold: real): (p: Progress)
    ensures p.Percent? ==> p.value <= 100.0
    ensures threshold == 0.0 && score > 0.0 ==> p == Percent(100.0)
    ensures threshold != 0.0 ==> p == Percent(if score / threshold * 100.0 < 100.0 then score / threshold * 100.0 else 100.0)
    ensures p == NotANumber <==> threshold == 0.0 && score == 0.0
    ensures p == MinusInfinity <==> threshold == 0.0 && score < 0.0
  {
    if threshold == 0.0 then
      if score > 0.0 then Percent(100.0)
      else if score == 0.0 then NotANumber
      else MinusInfinity
    else
      var ratio := score / threshold * 100.0;
      Percent(if ratio < 100.0 then ratio else 100.0)
  }

  /** `getProgressForAchievement`: 100 for an unlocked achievement; for a profile
      completeness achievement with stats loaded, the completeness score as a share of the
      threshold, capped at 100; 0 for everything else. */
  function ProgressFor(a: Achievement, uas: seq<UserAchievement>, stats: Option<ProfileStats>): (p: Progress)
    ensures a.id in UnlockedIds(uas) ==> p == Percent(100.0)
    ensures a.id !in UnlockedIds(uas) && (a.requirement.kind != ProfileComplete || stats.None?) ==>
      p == Percent(0.0)
    ensures a.id !in UnlockedIds(uas) && a.requirement.kind == ProfileComplete && stats.Some? ==>
      p == CappedRatio(stats.value.completenessScore, a.requirement.threshold)
  {
    if a.id in UnlockedIds(uas) then Percent(100.0)
    else if a.requirement.kind == ProfileComplete && stats.Some? then
      CappedRatio(stats.value.completenessScore, a.requirement.threshold)
    else Percent(0.0)
  }

  /** With a positive threshold and a non-negative score, progress is a percentage between 0
      and 100, reaching 100 exactly when the score meets the threshold. */
  lemma ProgressInRange(score: real, threshold: real)
    requires threshold > 0.0 && score >= 0.0
    ensures CappedRatio(score, threshold).Percent?
    ensures 0.0 <= CappedRatio(score, threshold).value <= 100.0
    ensures CappedRatio(score, threshold).value == 100.0 <==> score >= threshold
  {
    var ratio := score / threshold * 100.0;
    assert ratio * threshold == score * 100.0;
    if score >= threshold {
      assert ratio >= 100.0;
    } else {
      assert ratio < 100.0;
    }
  }

  /** Progress grows with the completeness score. */
  lemma ProgressMonotone(s1: real, s2: real, threshold: real)
    requires threshold > 0.0 && s1 <= s2
    ensures CappedRatio(s1, threshold).value <= CappedRatio(s2, threshold).value
  {
    assert s1 / threshold <= s2 / threshold;
  }

  // ------------------------------------------------------- completeness line

  /** The line under the completeness bar. */
  datatype CompletenessLine = PercentLeft(percent: real) | ProfileCompleteLine

  function CompletenessText(score: real): (l: CompletenessLine)
    ensures l.ProfileCompleteLine? <==> score >= 100.0
    ensures l.PercentLeft? ==> l.percent > 0.0 && l.percent + score == 100.0
  {
    if score < 100.0 then PercentLeft(100.0 - score) else ProfileCompleteLine
  }

  /** The completeness card and a locked profile-completeness achievement with threshold 100
      tell the same story: the achievement's progress is the score, the text names the rest
      up to 100, and the text says complete exactly when the progress is full. */
  lemma CompletenessAgreesWithProgress(a: Achievement, uas: seq<UserAchievement>, score: real)
    requires a.id !in UnlockedIds(uas) && a.requirement == Requirement(ProfileComplete, 100.0)
    requires score >= 0.0
    ensures var p := ProgressFor(a, uas, Some(ProfileStats(score)));
      && p.Percent?
      && (score < 100.0 ==> p == Percent(score) && CompletenessText(score) == PercentLeft(100.0 - score))
      && (p.value == 100.0 <==> CompletenessText(score).ProfileCompleteLine?)
  {
    ProgressInRange(score, 100.0);
    assert score / 100.0 * 100.0 == score;
  }
}

/** The profile form of src/components/profile/ProfileEditor.tsx: field edits, the interest
    list (at most ten, no repeats) and the suggested-interest chips. Saving the form and
    uploading photos are requests outside the model. */
module ProfileEditor {
  import opened Options

  const MaxInterests: nat := 10
  const MaxSuggestions: nat := 8

  /** SUGGESTED_INTERESTS, in display order. */
  const SuggestedInterests: seq<string> := [
    "Travel", "Photography", "Music", "Sports", "Cooking", "Reading",
    "Movies", "Fitness", "Art", "Gaming", "Dancing", "Hiking",
    "Fashion", "Technology", "Coffee", "Wine", "Yoga", "Pets",
    "Adventure", "Comedy", "Nature", "Culture", "Learning"
  ]

  /** The age field holds a number or the empty string. */
  datatype Age = NoAge | Years(n: int)

  datatype Form = Form(firstName: string, lastName: string, age: Age, location: string,
                       bio: string, interests: seq<string>)

  /** The form and the custom-interest input `newInterest`. */
  datatype Editor = Editor(form: Form, newInterest: string)

  /** The named-field updates `handleInputChange` receives from the inputs. */
  datatype FieldEdit =
    | SetFirstName(text: string)
    | SetLastName(text: string)
    | SetAge(age: Age)
    | SetLocation(text: string)
    | SetBio(text: string)

  /** The age input stores `parseInt(value) || ''`: a value that does not parse, and a
      value that parses to 0, both leave the field empty. */
  function AgeFromInput(parsed: Option<int>): (a: Age)
    ensures a == NoAge <==> parsed.None? || parsed == Some(0)
    ensures a.Years? ==> parsed == Some(a.n) && a.n != 0
  {
    match parsed
    case None => NoAge
    case Some(n) => if n == 0 then NoAge else Years(n)
  }

  /** `handleInputChange`: the named field takes the new value, every other field keeps its
      value. */
  function HandleInputChange(f: Form, e: FieldEdit): (r: Form)
    ensures r.interests == f.interests
    ensures r.firstName == (if e.SetFirstName? then e.text else f.firstName)
    ensures r.lastName == (if e.SetLastName? then e.text else f.lastName)
    ensures r.age == (if e.SetAge? then e.age else f.age)
    ensures r.location == (if e.SetLocation? then e.text else f.location)
    ensures r.bio == (if e.SetBio? then e.text else f.bio)
  {
    match e
    case SetFirstName(t) => f.(firstName := t)
    case SetLastName(t) => f.(lastName := t)
    case SetAge(a) => f.(age := a)
    case SetLocation(t) => f.(location := t)
    case SetBio(t) => f.(bio := t)
  }

  /** The interests of a form loaded from a profile that obeys the editor's own rules:
      at most ten, none repeated. */
  predicate ValidInterests(xs: seq<string>) {
    |xs| <= MaxInterests && Distinct(xs)
  }

  /** `addInterest`: a non-empty interest not yet chosen is appended while fewer than ten are
      chosen, and the input is then cleared; any other call changes nothing. */
  function AddInterest(ed: Editor, interest: string): (r: Editor)
    ensures interest != [] && interest !in ed.form.interests && |ed.form.interests| < MaxInterests ==>
      r == Editor(ed.form.(interests := ed.form.interests + [interest]), [])
    ensures !(interest != [] && interest !in ed.form.interests && |ed.form.interests| < MaxInterests) ==>
      r == ed
  {
    if interest != [] && interest !in ed.form.interests && |ed.form.interests| < MaxInterests then
      Editor(ed.form.(interests := ed.form.interests + [interest]), [])
    else ed
  }

  /** `prev.interests.filter(i => i !== x)`. */
  function Without(xs: seq<string>, x: string): (r: seq<string>)
    ensures |r| <= |xs|
    ensures x !in r
    ensures forall y :: y in r <==> y in xs && y != x
  {
    if xs == [] then []
    else if xs[0] == x then Without(xs[1..], x)
    else [xs[0]] + Without(xs[1..], x)
  }

  /** `removeInterest`: every occurrence of the interest goes, the rest of the form and the
      input stay. */
  function RemoveInterest(ed: Editor, interest: string): (r: Editor)
    ensures r.newInterest == ed.newInterest
    ensures r.form == ed.form.(interests := r.form.interests)
    ensures interest !in r.form.interests
    ensures forall y :: y in r.form.interests <==> y in ed.form.interests && y != interest
  {
    ed.(form := ed.form.(interests := Without(ed.form.interests, interest)))
  }

  /** Removal keeps the relative order of what is left: it distributes over concatenation. */
  lemma {:induction false} WithoutAppend(a: seq<string>, b: seq<string>, x: string)
    ensures Without(a + b, x) == Without(a, x) + Without(b, x)
    decreases |a|
  {
    if a == [] {
      assert a + b == b;
    } else {
      assert (a + b)[1..] == a[1..] + b;
      WithoutAppend(a[1..], b, x);
    }
  }

  lemma {:induction false} WithoutAbsent(xs: seq<string>, x: string)
    requires x !in xs
    ensures Without(xs, x) == xs
    decreases |xs|
  {
    if xs != [] {
      WithoutAbsent(xs[1..], x);
    }
  }

  predicate Distinct(xs: seq<string>) {
    forall i, j :: 0 <= i < j < |xs| ==> xs[i] != xs[j]
  }

  lemma {:induction false} WithoutKeepsDistinct(xs: seq<string>, x: string)
    requires Distinct(xs)
    ensures Distinct(Without(xs, x))
    decreases |xs|
  {
    if xs != [] {
      assert Distinct(xs[1..]) by {
        forall i, j | 0 <= i < j < |xs[1..]| ensures xs[1..][i] != xs[1..][j] {
          assert xs[1..][i] == xs[i + 1] && xs[1..][j] == xs[j + 1];
        }
      }
      WithoutKeepsDistinct(xs[1..], x);
      var rest := Without(xs[1..], x);
      if xs[0] != x {
        assert xs[0] !in xs[1..] by {
          forall k | 0 <= k < |xs[1..]| ensures xs[1..][k] != xs[0] {
            assert xs[1..][k] == xs[k + 1];
          }
        }
        assert xs[0] !in rest;
        var r := [xs[0]] + rest;
        assert Without(xs, x) == r;
        forall i, j | 0 <= i < j < |r| ensures r[i] != r[j] {
          assert r[j] == rest[j - 1] && r[j] in rest;
          if i > 0 {
            assert r[i] == rest[i - 1];
          }
        }
      }
    }
  }

  /** Adding and removing interests keeps the list valid: at most ten and no repeats. */
  lemma EditsKeepInterestsValid(ed: Editor, interest: string)
    requires ValidInterests(ed.form.interests)
    ensures ValidInterests(AddInterest(ed, interest).form.interests)
    ensures ValidInterests(RemoveInterest(ed, interest).form.interests)
  {
    WithoutKeepsDistinct(ed.form.interests, interest);
  }

  /** Adding an interest not yet chosen and then removing it gives back the original list. */
  lemma AddThenRemoveRestores(ed: Editor, interest: string)
    requires interest != [] && interest !in ed.form.interests && |ed.form.interests| < MaxInterests
    ensures RemoveInterest(AddInterest(ed, interest), interest).form == ed.form
  {
    WithoutAppend(ed.form.interests, [interest], interest);
    WithoutAbsent(ed.form.interests, interest);
  }

  /** `r` can be obtained from `xs` by deleting elements: its elements appear in `xs` in
      the same order. */
  predicate IsSubsequence(r: seq<string>, xs: seq<string>)
    decreases |xs|
  {
    r == [] || (xs != [] && ((r[0] == xs[0] && IsSubsequence(r[1..], xs[1..])) || IsSubsequence(r, xs[1..])))
  }

  lemma {:induction false} SubsequenceDropHead(r: seq<string>, xs: seq<string>)
    requires r != [] && IsSubsequence(r, xs)
    ensures IsSubsequence(r[1..], xs)
    decreases |xs|
  {
    if r[0] == xs[0] && IsSubsequence(r[1..], xs[1..]) {
    } else {
      SubsequenceDropHead(r, xs[1..]);
    }
  }

  lemma {:induction false} SubsequencePrefix(r: seq<string>, xs: seq<string>, n: nat)
    requires n <= |r| && IsSubsequence(r, xs)
    ensures IsSubsequence(r[..n], xs)
    decreases |xs|
  {
    if n > 0 {
      if r[0] == xs[0] && IsSubsequence(r[1..], xs[1..]) {
        SubsequencePrefix(r[1..], xs[1..], n - 1);
        assert r[..n][1..] == r[1..][..n - 1];
      } else {
        SubsequencePrefix(r, xs[1..], n);
      }
    }
  }

  /** The suggestions not yet chosen, in SUGGESTED_INTERESTS order. */
  function Unchosen(candidates: seq<string>, chosen: seq<string>): (r: seq<string>)
    ensures |r| <= |candidates|
    ensures forall y :: y in r <==> y in candidates && y !in chosen
    ensures IsSubsequence(r, candidates)
  {
    if candidates == [] then []
    else if candidates[0] in chosen then Unchosen(candidates[1..], chosen)
    else
      var r := [candidates[0]] + Unchosen(candidates[1..], chosen);
      assert r[1..] == Unchosen(candidates[1..], chosen);
      r
  }

  /** The first `n` candidates not yet chosen, in candidate order: all of them when there
      are no more than `n`. */
  function FirstUnchosen(candidates: seq<string>, chosen: seq<string>, n: nat): (r: seq<string>)
    ensures |r| <= n
    ensures forall y :: y in r ==> y in candidates && y !in chosen
    ensures IsSubsequence(r, candidates)
    ensures |r| <= |Unchosen(candidates, chosen)| && r == Unchosen(candidates, chosen)[..|r|]
    ensures |r| == if |Unchosen(candidates, chosen)| <= n then |Unchosen(candidates, chosen)| else n
    ensures |r| < n ==> forall y :: y in candidates && y !in chosen ==> y in r
  {
    var all := Unchosen(candidates, chosen);
    if |all| <= n then
      assert all[..|all|] == all;
      all
    else
      SubsequencePrefix(all, candidates, n);
      assert forall y :: y in all[..n] ==> y in all;
      all[..n]
  }

  /** `SUGGESTED_INTERESTS.filter(i => !interests.includes(i)).slice(0, 8)`: the first eight
      suggestions not yet chosen, in SUGGESTED_INTERESTS order, and fewer than eight only
      when every unchosen suggestion is shown. */
  function Suggestions(chosen: seq<string>): (r: seq<string>)
    ensures |r| <= MaxSuggestions
    ensures forall y :: y in r ==> y in SuggestedInterests && y !in chosen
    ensures IsSubsequence(r, SuggestedInterests)
    ensures |r| <= |Unchosen(SuggestedInterests, chosen)| && r == Unchosen(SuggestedInterests, chosen)[..|r|]
    ensures |r| < MaxSuggestions ==>
      forall y :: y in SuggestedInterests && y !in chosen ==> y in r
  {
    FirstUnchosen(SuggestedInterests, chosen, MaxSuggestions)
  }
}

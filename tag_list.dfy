/**
 * The duplicate-free string lists of the admin forms: the blog editor's
 * `tags` (app/admin/blogs/create/page.tsx) and the settings panel's
 * `techStack` (app/admin/settings/page.tsx) are added to and removed from
 * by the same two steps.
 */
module TagList {
  import opened Text

  predicate NoDuplicates(xs: seq<string>) {
    forall i, j :: 0 <= i < j < |xs| ==> xs[i] != xs[j]
  }

  /** A list as the forms keep it: distinct entries, none of them empty. */
  predicate Clean(xs: seq<string>) {
    NoDuplicates(xs) && "" !in xs
  }

  /** `if (input.trim() && !list.includes(input.trim())) list = [...list, input.trim()]`. */
  function Added(xs: seq<string>, input: string): (r: seq<string>)
    ensures var t := Trim(input);
      (t != "" && t !in xs ==> r == xs + [t]) && (t == "" || t in xs ==> r == xs)
  {
    var t := Trim(input);
    if t != "" && t !in xs then xs + [t] else xs
  }

  /** Whether `Added` took the input, which is also when the input box is cleared. */
  predicate Accepts(xs: seq<string>, input: string) {
    Trim(input) != "" && Trim(input) !in xs
  }

  /** Adding keeps a clean list clean, and whatever was typed is in the list afterwards unless blank. */
  lemma AddedKeepsClean(xs: seq<string>, input: string)
    requires Clean(xs)
    ensures Clean(Added(xs, input))
    ensures Trim(input) != "" ==> Trim(input) in Added(xs, input)
    ensures |Added(xs, input)| == |xs| + (if Accepts(xs, input) then 1 else 0)
  {
    var t := Trim(input);
    if Accepts(xs, input) {
      var r := xs + [t];
      forall i, j | 0 <= i < j < |r|
        ensures r[i] != r[j]
      {
        if j == |xs| {
          assert r[i] == xs[i];
        }
      }
    }
  }

  /** Adding the same input twice is adding it once. */
  lemma AddedIdempotent(xs: seq<string>, input: string)
    ensures Added(Added(xs, input), input) == Added(xs, input)
  {
  }

  /** `list.filter(t => t !== x)`. */
  function Without(xs: seq<string>, x: string): (r: seq<string>)
    ensures x !in r
    ensures forall y :: y in r <==> y in xs && y != x
    ensures |r| <= |xs|
  {
    if |xs| == 0 then []
    else (if xs[0] == x then [] else [xs[0]]) + Without(xs[1..], x)
  }

  /** Removing works piecewise, so the survivors keep their order. */
  lemma {:induction false} WithoutAppend(a: seq<string>, b: seq<string>, x: string)
    ensures Without(a + b, x) == Without(a, x) + Without(b, x)
    decreases |a|
  {
    if |a| == 0 {
      assert a + b == b;
    } else {
      assert (a + b)[0] == a[0];
      assert (a + b)[1..] == a[1..] + b;
      WithoutAppend(a[1..], b, x);
    }
  }

  /** Removing an absent entry changes nothing, and a clean list stays clean. */
  lemma {:induction false} WithoutKeepsClean(xs: seq<string>, x: string)
    ensures x !in xs ==> Without(xs, x) == xs
    ensures NoDuplicates(xs) ==> NoDuplicates(Without(xs, x))
    ensures Clean(xs) ==> Clean(Without(xs, x))
    decreases |xs|
  {
    if |xs| > 0 {
      assert NoDuplicates(xs) ==> NoDuplicates(xs[1..]);
      WithoutKeepsClean(xs[1..], x);
      assert NoDuplicates(xs) ==> xs[0] !in xs[1..];
      assert xs == [xs[0]] + xs[1..];
    }
  }

  /** Removing one entry twice is removing it once. */
  lemma {:induction false} WithoutIdempotent(xs: seq<string>, x: string)
    ensures Without(Without(xs, x), x) == Without(xs, x)
    decreases |xs|
  {
    if |xs| > 0 {
      WithoutIdempotent(xs[1..], x);
      if xs[0] == x {
        assert Without(xs, x) == Without(xs[1..], x);
      } else {
        assert [xs[0]] + Without(xs[1..], x) == Without(xs, x);
        assert Without(xs, x)[1..] == Without(xs[1..], x);
      }
    }
  }

  /** Adding a fresh entry and removing it again restores the list. */
  lemma AddThenRemove(xs: seq<string>, input: string)
    requires Accepts(xs, input)
    ensures Without(Added(xs, input), Trim(input)) == xs
  {
    var t := Trim(input);
    WithoutAppend(xs, [t], t);
    WithoutKeepsClean(xs, t);
    assert Without([t], t) == [];
  }
}

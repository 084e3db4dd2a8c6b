/**
 * app/admin/blogs/create/page.tsx: the pure helpers `generateSlug` and
 * `calculateReadTime`, and the handlers that update the `formData` record
 * and the `newTag` input of the create-blog page.
 */
module BlogEditor {
  import opened Text
  import opened TagList

  // ---------------------------------------------------------------- generateSlug

  /** A character the regular expression `[^a-z0-9]` does not match. */
  predicate Kept(c: char) { IsLowerAlnum(c) }

  /** Drops the run of characters matched by `[^a-z0-9]` at the front. */
  function DropRun(s: string): (r: string)
    ensures |r| <= |s| && r == s[|s| - |r|..]
    ensures |r| > 0 ==> Kept(r[0])
  {
    if |s| == 0 || Kept(s[0]) then s else DropRun(s[1..])
  }

  /** `.replace(/[^a-z0-9]+/g, '-')`: every maximal run of other characters becomes one `-`. */
  function Collapse(s: string): (r: string)
    ensures |r| <= |s|
    ensures |r| > 0 <==> |s| > 0
    decreases |s|
  {
    if |s| == 0 then []
    else if Kept(s[0]) then [s[0]] + Collapse(s[1..])
    else ['-'] + Collapse(DropRun(s[1..]))
  }

  /** Only `[a-z0-9-]`. */
  predicate SlugChars(t: string) {
    forall i :: 0 <= i < |t| ==> Kept(t[i]) || t[i] == '-'
  }

  /** No `--`. */
  predicate NoDoubleDash(t: string) {
    forall i :: 0 <= i < |t| - 1 ==> !(t[i] == '-' && t[i + 1] == '-')
  }

  /** What a slug looks like: `[a-z0-9-]` only, no `-` at either end, no `--`. */
  predicate IsSlug(s: string) {
    SlugChars(s) && (|s| > 0 ==> s[0] != '-' && s[|s| - 1] != '-') && NoDoubleDash(s)
  }

  /** The collapse leaves only `[a-z0-9-]`, never two dashes in a row, and keeps a kept first character. */
  lemma {:induction false} CollapseShape(s: string)
    ensures SlugChars(Collapse(s)) && NoDoubleDash(Collapse(s))
    ensures |s| > 0 && Kept(s[0]) ==> Collapse(s)[0] == s[0]
    decreases |s|
  {
    if |s| > 0 {
      var tail := if Kept(s[0]) then s[1..] else DropRun(s[1..]);
      var head := if Kept(s[0]) then s[0] else '-';
      CollapseShape(tail);
      var ct := Collapse(tail);
      assert Collapse(s) == [head] + ct;
      if !Kept(s[0]) && |ct| > 0 {
        assert Kept(tail[0]);
        assert ct[0] == tail[0];
      }
      var r := Collapse(s);
      forall i | 0 <= i < |r|
        ensures Kept(r[i]) || r[i] == '-'
      {
        if i > 0 {
          assert r[i] == ct[i - 1];
        }
      }
      forall i | 0 <= i < |r| - 1
        ensures !(r[i] == '-' && r[i + 1] == '-')
      {
        if i > 0 {
          assert r[i] == ct[i - 1] && r[i + 1] == ct[i];
        }
      }
    }
  }

  /** `.replace(/(^-|-$)/g, '')`: at most one `-` off each end. */
  function StripDashes(t: string): (r: string)
    ensures |r| <= |t|
  {
    var t1 := if |t| > 0 && t[0] == '-' then t[1..] else t;
    if |t1| > 0 && t1[|t1| - 1] == '-' then t1[..|t1| - 1] else t1
  }

  /** After the collapse, stripping one dash from each end leaves a slug. */
  lemma StripGivesSlug(t: string)
    requires SlugChars(t) && NoDoubleDash(t)
    ensures IsSlug(StripDashes(t))
  {
    var lo := if |t| > 0 && t[0] == '-' then 1 else 0;
    var t1 := t[lo..];
    var hi := if |t1| > 0 && t1[|t1| - 1] == '-' then |t| - 1 else |t|;
    var r := StripDashes(t);
    assert r == t[lo..hi];
    if |r| > 0 {
      assert r[0] == t[lo];
      if lo == 1 {
        assert t[0] == '-';
      }
      assert r[|r| - 1] == t[hi - 1];
      if hi == |t| - 1 {
        assert t[hi] == '-';
      }
    }
  }

  function GenerateSlug(title: string): (slug: string)
    ensures IsSlug(slug)
    ensures |slug| <= |title|
  {
    var c := Collapse(ToLower(title));
    CollapseShape(ToLower(title));
    StripGivesSlug(c);
    StripDashes(c)
  }

  /** A slug is left as it is by `.replace(/[^a-z0-9]+/g, '-')`. */
  lemma {:induction false} CollapseOfSlugChars(s: string)
    requires SlugChars(s) && NoDoubleDash(s)
    ensures Collapse(s) == s
    decreases |s|
  {
    if |s| > 0 {
      var rest := s[1..];
      SlugCharsTail(s);
      CollapseOfSlugChars(rest);
      if !Kept(s[0]) && |rest| > 0 {
        assert s[0] == '-' && rest[0] == s[1];
      }
      assert s == [s[0]] + rest;
    }
  }

  /** Dropping the first character keeps `[a-z0-9-]` without `--`. */
  lemma SlugCharsTail(s: string)
    requires |s| > 0 && SlugChars(s) && NoDoubleDash(s)
    ensures SlugChars(s[1..]) && NoDoubleDash(s[1..])
  {
    var rest := s[1..];
    forall i | 0 <= i < |rest|
      ensures Kept(rest[i]) || rest[i] == '-'
    {
      assert rest[i] == s[i + 1];
    }
    forall i | 0 <= i < |rest| - 1
      ensures !(rest[i] == '-' && rest[i + 1] == '-')
    {
      assert rest[i] == s[i + 1] && rest[i + 1] == s[i + 2];
    }
  }

  /** `generateSlug` is idempotent: a generated slug regenerates to itself. */
  lemma GenerateSlugIdempotent(title: string)
    ensures GenerateSlug(GenerateSlug(title)) == GenerateSlug(title)
  {
    var s := GenerateSlug(title);
    LowerOfSlugChars(s);
    CollapseOfSlugChars(s);
    StripOfSlug(s);
  }

  /** Lower-casing `[a-z0-9-]` text changes nothing. */
  lemma LowerOfSlugChars(t: string)
    requires SlugChars(t)
    ensures ToLower(t) == t
  {
    assert forall i :: 0 <= i < |t| ==> ToLower(t)[i] == t[i];
  }

  /** A slug has no end dash to strip. */
  lemma StripOfSlug(t: string)
    requires IsSlug(t)
    ensures StripDashes(t) == t
  {
  }

  predicate AllKept(w: string) { forall i :: 0 <= i < |w| ==> Kept(w[i]) }

  /** A prefix of kept characters passes the collapse unchanged. */
  lemma {:induction false} CollapseKeptPrefix(a: string, rest: string)
    requires AllKept(a)
    ensures Collapse(a + rest) == a + Collapse(rest)
    decreases |a|
  {
    if |a| == 0 {
      assert a + rest == rest;
    } else {
      var x := a + rest;
      assert x[0] == a[0] && x[1..] == a[1..] + rest;
      CollapseKeptHead(x);
      CollapseKeptPrefix(a[1..], rest);
      assert a == [a[0]] + a[1..];
    }
  }

  /** A kept first character is copied and the collapse goes on with the rest. */
  lemma CollapseKeptHead(s: string)
    requires |s| > 0 && Kept(s[0])
    ensures Collapse(s) == [s[0]] + Collapse(s[1..])
  {
  }

  /** Lower-casing text of kept characters and spaces changes nothing. */
  lemma LowerOfPlain(t: string)
    requires Plain(t)
    ensures ToLower(t) == t
  {
  }

  /** Only kept characters and spaces. */
  predicate Plain(t: string) {
    forall i :: 0 <= i < |t| ==> Kept(t[i]) || t[i] == ' '
  }

  /** Two kept words joined by a space are kept characters and spaces only. */
  lemma TwoWordsArePlain(a: string, b: string)
    requires AllKept(a) && AllKept(b)
    ensures Plain(a + (" " + b))
  {
    var title := a + (" " + b);
    forall i | 0 <= i < |title|
      ensures Kept(title[i]) || title[i] == ' '
    {
      if i < |a| {
        assert title[i] == a[i];
      } else if i > |a| {
        assert title[i] == b[i - |a| - 1];
      }
    }
  }

  /** A space before a kept word becomes one dash. */
  lemma CollapseSpacedWord(b: string)
    requires |b| > 0 && AllKept(b)
    ensures Collapse(" " + b) == "-" + b
  {
    assert SlugChars(b) && NoDoubleDash(b);
    CollapseOfSlugChars(b);
    var sb := " " + b;
    assert sb[0] == ' ' && sb[1..] == b;
    assert DropRun(b) == b;
  }

  /** Two kept words joined by a space are left alone by the lower-casing. */
  lemma LowerTwoWords(a: string, b: string)
    requires AllKept(a) && AllKept(b)
    ensures ToLower(a + " " + b) == a + " " + b
  {
    assert a + " " + b == a + (" " + b);
    TwoWordsArePlain(a, b);
    LowerOfPlain(a + (" " + b));
  }

  /** The space between two kept words collapses to one dash. */
  lemma CollapseTwoWords(a: string, b: string)
    requires |b| > 0 && AllKept(a) && AllKept(b)
    ensures Collapse(a + " " + b) == a + "-" + b
  {
    assert a + " " + b == a + (" " + b);
    assert a + "-" + b == a + ("-" + b);
    CollapseSpacedWord(b);
    CollapseKeptPrefix(a, " " + b);
  }

  /** Two kept words joined by a dash have no end dash to strip. */
  lemma StripTwoWords(a: string, b: string)
    requires |a| > 0 && |b| > 0 && AllKept(a) && AllKept(b)
    ensures StripDashes(a + "-" + b) == a + "-" + b
  {
    var c := a + "-" + b;
    assert c[0] == a[0] && c[|c| - 1] == b[|b| - 1];
    EndsKeptNoStrip(c);
  }

  /** Two lower-case words separated by a space become `word-word`. */
  lemma SlugOfTwoWords(a: string, b: string)
    requires |a| > 0 && |b| > 0 && AllKept(a) && AllKept(b)
    ensures GenerateSlug(a + " " + b) == a + "-" + b
  {
    LowerTwoWords(a, b);
    CollapseTwoWords(a, b);
    StripTwoWords(a, b);
  }

  /** Text that starts and ends with a kept character loses nothing to the end-dash strip. */
  lemma EndsKeptNoStrip(c: string)
    requires |c| > 0 && Kept(c[0]) && Kept(c[|c| - 1])
    ensures StripDashes(c) == c
  {
  }

  // ---------------------------------------------------------------- calculateReadTime

  /** How many maximal runs of whitespace `t` holds. */
  function SpaceRuns(t: string): (n: nat)
    ensures n <= |t|
  {
    if |t| == 0 then 0
    else
      var k := |t| - 1;
      SpaceRuns(t[..k]) + if IsSpace(t[k]) && (k == 0 || !IsSpace(t[k - 1])) then 1 else 0
  }

  /** `content.trim().split(/\s+/).length`: one more than the whitespace runs inside the trimmed text. */
  function WordCount(content: string): (n: nat)
    ensures n >= 1
  {
    1 + SpaceRuns(Trim(content))
  }

  /** `Math.ceil(words / 200)`. */
  function CalculateReadTime(content: string): (minutes: nat)
    ensures minutes >= 1
    ensures (minutes - 1) * 200 < WordCount(content) <= minutes * 200
  {
    var words := WordCount(content);
    var q := (words + 199) / 200;
    assert q * 200 + (words + 199) % 200 == words + 199;
    q
  }

  /** Characters other than whitespace add no run. */
  lemma {:induction false} SpaceRunsNoSpace(x: string, w: string)
    requires |x| > 0 && !IsSpace(x[|x| - 1])
    requires forall i :: 0 <= i < |w| ==> !IsSpace(w[i])
    ensures SpaceRuns(x + w) == SpaceRuns(x)
    decreases |w|
  {
    if |w| > 0 {
      var k := |w| - 1;
      assert (x + w)[..|x + w| - 1] == x + w[..k];
      SpaceRunsNoSpace(x, w[..k]);
      var y := x + w;
      assert y[|y| - 1] == w[k] && !IsSpace(w[k]);
      assert SpaceRuns(y) == SpaceRuns(y[..|y| - 1]);
    } else {
      assert x + w == x;
    }
  }

  /** Text `words[0] words[1] …`, one space between words. */
  function Sentence(words: seq<string>): string
    requires |words| >= 1
  {
    if |words| == 1 then words[0] else Sentence(words[..|words| - 1]) + " " + words[|words| - 1]
  }

  predicate IsWord(w: string) { |w| > 0 && forall i :: 0 <= i < |w| ==> !IsSpace(w[i]) }

  /** A sentence of words holds one run of whitespace fewer than it has words. */
  lemma {:induction false} SentenceRuns(words: seq<string>)
    requires |words| >= 1 && forall k :: 0 <= k < |words| ==> IsWord(words[k])
    ensures var t := Sentence(words); |t| > 0 && !IsSpace(t[0]) && !IsSpace(t[|t| - 1])
    ensures SpaceRuns(Sentence(words)) == |words| - 1
    decreases |words|
  {
    var w := words[|words| - 1];
    if |words| == 1 {
      SpaceRunsNoSpace([w[0]], w[1..]);
      assert [w[0]] + w[1..] == w;
      assert SpaceRuns([w[0]]) == 0;
    } else {
      var init := words[..|words| - 1];
      SentenceRuns(init);
      var t := Sentence(init);
      var ts := t + " ";
      assert ts[..|ts| - 1] == t;
      assert SpaceRuns(ts) == SpaceRuns(t) + 1;
      SpaceRunsNoSpace(ts + [w[0]], w[1..]);
      assert (ts + [w[0]])[..|ts|] == ts;
      assert SpaceRuns(ts + [w[0]]) == SpaceRuns(ts);
      assert ts + [w[0]] + w[1..] == t + " " + w;
      assert (t + " " + w)[0] == t[0];
    }
  }

  /** Trimming text that starts and ends with a non-blank character changes nothing. */
  lemma TrimOfTrimmed(t: string)
    requires |t| > 0 && !IsSpace(t[0]) && !IsSpace(t[|t| - 1])
    ensures Trim(t) == t
  {
    assert TrimStart(t) == t;
  }

  /** The word count is the number of words of a sentence. */
  lemma SentenceWordCount(words: seq<string>)
    requires |words| >= 1 && forall k :: 0 <= k < |words| ==> IsWord(words[k])
    ensures WordCount(Sentence(words)) == |words|
  {
    SentenceRuns(words);
    TrimOfTrimmed(Sentence(words));
  }

  /** Empty or blank content still counts one word, so an empty post reads in a minute. */
  lemma BlankReadsInOneMinute(content: string)
    requires forall i :: 0 <= i < |content| ==> IsSpace(content[i])
    ensures WordCount(content) == 1 && CalculateReadTime(content) == 1
  {
    assert TrimStart(content) == [];
  }

  /** Two hundred words are one minute; the two hundred and first starts the second. */
  lemma ReadTimeSteps(content: string)
    ensures WordCount(content) <= 200 <==> CalculateReadTime(content) == 1
    ensures WordCount(content) == 201 ==> CalculateReadTime(content) == 2
  {
  }

  // ---------------------------------------------------------------- the form

  datatype Status = DRAFT | PUBLISHED | ARCHIVED

  datatype FormData = FormData(title: string, slug: string, excerpt: string, content: string,
                               isPublished: bool, isFeatured: bool, status: Status,
                               metaTitle: string, metaDescription: string, featuredImage: string,
                               readTime: nat, tags: seq<string>)

  const EmptyForm: FormData := FormData("", "", "", "", false, false, DRAFT, "", "", "", 0, [])

  /** The body `handleSubmit` posts: the form as it is, with `tags: []`. */
  function SubmittedBody(f: FormData): (body: FormData)
    ensures body.tags == []
    ensures body.(tags := f.tags) == f
  {
    f.(tags := [])
  }

  class CreateBlogPage {
    var formData: FormData
    var newTag: string

    /** Tags are distinct, trimmed and non-empty. */
    ghost predicate Valid()
      reads this
    {
      Clean(formData.tags)
    }

    constructor ()
      ensures formData == EmptyForm && newTag == ""
      ensures Valid()
    {
      formData, newTag := EmptyForm, "";
    }

    method SetNewTag(text: string)
      modifies this
      ensures newTag == text && formData == old(formData)
    {
      newTag := text;
    }

    /** `handleTitleChange`: title, slug and meta title move together. */
    method HandleTitleChange(title: string)
      modifies this
      requires Valid()
      ensures formData == old(formData).(title := title, slug := GenerateSlug(title), metaTitle := title)
      ensures newTag == old(newTag)
      ensures Valid()
    {
      formData := formData.(title := title, slug := GenerateSlug(title), metaTitle := title);
    }

    /** `addTag`: the trimmed input is appended when it is non-empty and new, and the input cleared. */
    method AddTag()
      modifies this
      requires Valid()
      ensures formData == old(formData).(tags := Added(old(formData.tags), old(newTag)))
      ensures newTag == if Accepts(old(formData.tags), old(newTag)) then "" else old(newTag)
      ensures Valid()
    {
      var t := Trim(newTag);
      if t != "" && t !in formData.tags {
        AddedKeepsClean(formData.tags, newTag);
        formData := formData.(tags := formData.tags + [t]);
        newTag := "";
      }
    }

    /** `removeTag`: every occurrence goes, the rest keep their order. */
    method RemoveTag(tag: string)
      modifies this
      requires Valid()
      ensures formData == old(formData).(tags := Without(old(formData.tags), tag))
      ensures newTag == old(newTag)
      ensures Valid()
    {
      WithoutKeepsClean(formData.tags, tag);
      formData := formData.(tags := Without(formData.tags, tag));
    }

    /** `handleContentChange`: the read time follows the content. */
    method HandleContentChange(content: string)
      modifies this
      requires Valid()
      ensures formData == old(formData).(content := content, readTime := CalculateReadTime(content))
      ensures formData.readTime >= 1
      ensures newTag == old(newTag)
      ensures Valid()
    {
      formData := formData.(content := content, readTime := CalculateReadTime(content));
    }
  }
}

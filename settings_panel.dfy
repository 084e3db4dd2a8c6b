/**
 * app/admin/settings/page.tsx: the settings panel's state (`features`,
 * `techStack`, `newTech`, `bioText` and `saveStatus`) and the handlers that
 * update it. The two `setTimeout` callbacks of `handleSave` are methods of
 * their own, run when their timer fires.
 */
module SettingsPanel {
  import opened TagList

  datatype FeatureKey = Blog | Testimonials | ContactForm | HireMeBanner | Analytics

  /** The `features` record. */
  datatype Features = Features(blog: bool, testimonials: bool, contact: bool, hireMeBanner: bool, analytics: bool)

  function Flag(fs: Features, k: FeatureKey): bool {
    match k
    case Blog => fs.blog
    case Testimonials => fs.testimonials
    case ContactForm => fs.contact
    case HireMeBanner => fs.hireMeBanner
    case Analytics => fs.analytics
  }

  /** `{ ...prev, [feature]: !prev[feature] }`. */
  function Toggled(fs: Features, k: FeatureKey): (r: Features)
    ensures Flag(r, k) == !Flag(fs, k)
    ensures forall other :: other != k ==> Flag(r, other) == Flag(fs, other)
  {
    match k
    case Blog => fs.(blog := !fs.blog)
    case Testimonials => fs.(testimonials := !fs.testimonials)
    case ContactForm => fs.(contact := !fs.contact)
    case HireMeBanner => fs.(hireMeBanner := !fs.hireMeBanner)
    case Analytics => fs.(analytics := !fs.analytics)
  }

  /** Two records that agree on every flag are the same record. */
  lemma FlagsDetermine(a: Features, b: Features)
    requires forall k :: Flag(a, k) == Flag(b, k)
    ensures a == b
  {
    assert Flag(a, Blog) == Flag(b, Blog) && Flag(a, Testimonials) == Flag(b, Testimonials);
    assert Flag(a, ContactForm) == Flag(b, ContactForm) && Flag(a, HireMeBanner) == Flag(b, HireMeBanner);
    assert Flag(a, Analytics) == Flag(b, Analytics);
  }

  /** Toggling the same feature twice is the identity. */
  lemma ToggleInvolution(fs: Features, k: FeatureKey)
    ensures Toggled(Toggled(fs, k), k) == fs
  {
    FlagsDetermine(Toggled(Toggled(fs, k), k), fs);
  }

  /** Toggles of different features commute. */
  lemma TogglesCommute(fs: Features, j: FeatureKey, k: FeatureKey)
    ensures Toggled(Toggled(fs, j), k) == Toggled(Toggled(fs, k), j)
  {
    FlagsDetermine(Toggled(Toggled(fs, j), k), Toggled(Toggled(fs, k), j));
  }

  datatype SaveStatus = Idle | Saving | Saved

  /** `disabled={saveStatus === "saving"}`. */
  predicate SaveDisabled(s: SaveStatus) { s == Saving }

  /** The button's label. */
  function SaveLabel(s: SaveStatus): (caption: string)
    ensures SaveDisabled(s) <==> caption == "Saving..."
  {
    match s
    case Saving => "Saving..."
    case Saved => "Saved!"
    case Idle => "Save Changes"
  }

  const InitialTechStack: seq<string> :=
    ["Remix", "Next.js", "React", "Vercel AI SDK", "OpenAI", "Prisma", "PostgreSQL", "FastAPI", "Docker"]

  /** The starting list is clean. */
  lemma InitialTechStackClean()
    ensures Clean(InitialTechStack)
  {
    var xs := InitialTechStack;
    forall i, j | 0 <= i < j < |xs|
      ensures xs[i] != xs[j]
    {
      assert |xs[i]| != |xs[j]| || xs[i][0] != xs[j][0] || xs[i][2] != xs[j][2];
    }
  }

  class Panel {
    var bioText: string
    var features: Features
    var techStack: seq<string>
    var newTech: string
    var saveStatus: SaveStatus

    ghost predicate Valid()
      reads this
    {
      Clean(techStack)
    }

    constructor (bio: string)
      ensures bioText == bio && newTech == "" && saveStatus == Idle
      ensures features == Features(true, false, true, true, true)
      ensures techStack == InitialTechStack
      ensures Valid()
    {
      bioText := bio;
      features := Features(true, false, true, true, true);
      techStack := InitialTechStack;
      newTech := "";
      saveStatus := Idle;
      InitialTechStackClean();
    }

    method ToggleFeature(k: FeatureKey)
      modifies this
      ensures features == Toggled(old(features), k)
      ensures techStack == old(techStack) && newTech == old(newTech)
      ensures saveStatus == old(saveStatus) && bioText == old(bioText)
    {
      features := Toggled(features, k);
    }

    method SetNewTech(text: string)
      modifies this
      ensures newTech == text
      ensures features == old(features) && techStack == old(techStack)
      ensures saveStatus == old(saveStatus) && bioText == old(bioText)
    {
      newTech := text;
    }

    /** `addTech`. */
    method AddTech()
      modifies this
      requires Valid()
      ensures techStack == Added(old(techStack), old(newTech))
      ensures newTech == if Accepts(old(techStack), old(newTech)) then "" else old(newTech)
      ensures features == old(features) && saveStatus == old(saveStatus) && bioText == old(bioText)
      ensures Valid()
    {
      AddedKeepsClean(techStack, newTech);
      if Accepts(techStack, newTech) {
        techStack := techStack + [Text.Trim(newTech)];
        newTech := "";
      }
    }

    /** `removeTech`. */
    method RemoveTech(tech: string)
      modifies this
      requires Valid()
      ensures techStack == Without(old(techStack), tech)
      ensures newTech == old(newTech) && features == old(features)
      ensures saveStatus == old(saveStatus) && bioText == old(bioText)
      ensures Valid()
    {
      WithoutKeepsClean(techStack, tech);
      techStack := Without(techStack, tech);
    }

    /** `handleSave`: the status becomes `saving` and a one-second timer starts. */
    method HandleSave()
      modifies this
      ensures saveStatus == Saving && SaveDisabled(saveStatus)
      ensures features == old(features) && techStack == old(techStack)
      ensures newTech == old(newTech) && bioText == old(bioText)
    {
      saveStatus := Saving;
    }

    /** The first timer: `saved`, and a two-second timer starts. */
    method SavedTimerFires()
      modifies this
      ensures saveStatus == Saved && !SaveDisabled(saveStatus)
      ensures features == old(features) && techStack == old(techStack)
      ensures newTech == old(newTech) && bioText == old(bioText)
    {
      saveStatus := Saved;
    }

    /** The second timer: back to `idle`, whatever the status is by then. */
    method IdleTimerFires()
      modifies this
      ensures saveStatus == Idle && !SaveDisabled(saveStatus)
      ensures features == old(features) && techStack == old(techStack)
      ensures newTech == old(newTech) && bioText == old(bioText)
    {
      saveStatus := Idle;
    }
  }

  /** One save, both timers: idle, then saving (the only disabled step), saved and idle again; nothing else moves. */
  method SaveCycle(p: Panel) returns (seen: seq<SaveStatus>)
    modifies p
    requires p.saveStatus == Idle
    ensures seen == [Idle, Saving, Saved, Idle]
    ensures forall k :: 0 <= k < |seen| ==> (SaveDisabled(seen[k]) <==> k == 1)
    ensures p.saveStatus == Idle
    ensures p.features == old(p.features) && p.techStack == old(p.techStack)
  {
    seen := [p.saveStatus];
    p.HandleSave();
    seen := seen + [p.saveStatus];
    p.SavedTimerFires();
    seen := seen + [p.saveStatus];
    p.IdleTimerFires();
    seen := seen + [p.saveStatus];
  }
}

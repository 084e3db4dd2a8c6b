/** The `images.map((img, index) => …)` step shared by the blog and project `POST` handlers. */
module ContentImages {
  import opened Opt

  /** An image as the request body gives it; every optional field may be missing. */
  datatype ImageInput = ImageInput(url: string, alt: Option<string>, caption: Option<string>,
                                   kind: Option<string>, order: Option<int>, isPrimary: Option<bool>)

  datatype StoredImage = StoredImage(url: string, alt: Option<string>, caption: Option<string>,
                                     kind: string, order: int, isPrimary: bool)

  /** `img.order || index`: a missing order and an order of `0` both give the position. */
  function OrderOf(order: Option<int>, index: nat): (o: int)
    ensures order.Some? && order.value != 0 ==> o == order.value
    ensures order.None? || order.value == 0 ==> o == index
  {
    if order.Some? && order.value != 0 then order.value else index
  }

  function Stored(img: ImageInput, index: nat, defaultKind: string): StoredImage {
    StoredImage(img.url, img.alt, img.caption,
                if img.kind.Some? && img.kind.value != "" then img.kind.value else defaultKind,
                OrderOf(img.order, index),
                img.isPrimary == Some(true))
  }

  /** The images to create; `images` missing creates none. */
  function ImagesOf(images: Option<seq<ImageInput>>, defaultKind: string): (r: seq<StoredImage>)
    ensures images.None? ==> r == []
    ensures images.Some? ==> |r| == |images.value|
    ensures images.Some? ==> forall k :: 0 <= k < |r| ==> r[k] == Stored(images.value[k], k, defaultKind)
  {
    if images.None? then []
    else seq(|images.value|, k requires 0 <= k < |images.value| => Stored(images.value[k], k, defaultKind))
  }

  /** Images without an order come out numbered by position, so their orders are distinct. */
  lemma UnorderedImagesAreNumbered(images: seq<ImageInput>, defaultKind: string)
    requires forall k :: 0 <= k < |images| ==> images[k].order.None?
    ensures forall k :: 0 <= k < |images| ==> ImagesOf(Some(images), defaultKind)[k].order == k
    ensures forall j, k :: 0 <= j < k < |images| ==>
      ImagesOf(Some(images), defaultKind)[j].order != ImagesOf(Some(images), defaultKind)[k].order
  {
  }

  /** An explicit order `0` is not kept: the image at position 3 with order 0 gets order 3. */
  lemma ZeroOrderBecomesPosition(img: ImageInput, defaultKind: string)
    requires img.order == Some(0)
    ensures Stored(img, 3, defaultKind).order == 3
  {
  }

  /** Every stored image has a non-empty kind when the default is non-empty, and is primary only when asked. */
  lemma StoredDefaults(images: seq<ImageInput>, defaultKind: string)
    requires defaultKind != ""
    ensures forall k :: 0 <= k < |images| ==>
      var s := ImagesOf(Some(images), defaultKind)[k];
      s.kind != "" && (s.isPrimary <==> images[k].isPrimary == Some(true)) && s.url == images[k].url
  {
  }
}

/**
 * The `POST` half of app/api/blogs/route.ts: session, required fields,
 * slug uniqueness, then the defaults of the created row. The blog table is
 * a map keyed by slug; `nowMs` is the clock `new Date()` reads.
 */
module BlogsApi {
  import opened Opt
  import opened Http
  import opened ContentImages
  import Session

  datatype BlogBody =
    | Malformed
    | BlogBody(title: Option<string>, slug: Option<string>, excerpt: Option<string>, content: Option<string>,
               isPublished: Option<bool>, isFeatured: Option<bool>, status: Option<string>,
               metaTitle: Option<string>, metaDescription: Option<string>, featuredImage: Option<string>,
               readTime: Option<int>, tagIds: Option<seq<string>>, images: Option<seq<ImageInput>>)

  datatype Blog = Blog(title: string, slug: string, excerpt: string, content: string,
                       isPublished: bool, isFeatured: bool, status: string,
                       metaTitle: Option<string>, metaDescription: Option<string>, featuredImage: Option<string>,
                       readTime: Option<int>, publishedAt: Option<int>, authorId: string, images: seq<StoredImage>)

  datatype BlogReply = Failure(error: string) | Created(blog: Blog)

  predicate MissingFields(b: BlogBody)
    requires b.BlogBody?
  {
    Falsy(b.title) || Falsy(b.slug) || Falsy(b.excerpt) || Falsy(b.content)
  }

  /** The row `prisma.blog.create` receives. */
  function NewBlog(b: BlogBody, authorId: string, nowMs: int): Blog
    requires b.BlogBody? && !MissingFields(b)
  {
    Blog(b.title.value, b.slug.value, b.excerpt.value, b.content.value,
         b.isPublished.GetOr(false), b.isFeatured.GetOr(false),
         if Falsy(b.status) then "DRAFT" else b.status.value,
         b.metaTitle, b.metaDescription, b.featuredImage, b.readTime,
         if b.isPublished == Some(true) then Some(nowMs) else None,
         authorId, ImagesOf(b.images, "content"))
  }

  /** Every row is stored under its own slug. */
  ghost predicate KeyedBySlug(blogs: map<string, Blog>) {
    forall s :: s in blogs ==> blogs[s].slug == s
  }

  /** `POST /api/blogs`: the reply and the table afterwards. */
  function Create(session: Option<Session.SessionData>, body: BlogBody, blogs: map<string, Blog>, nowMs: int)
    : (r: (Reply<BlogReply>, map<string, Blog>))
    ensures session.None? ==> r == (Json(401, Failure("Unauthorized")), blogs)
    ensures session.Some? && body.Malformed? ==> r == (Json(500, Failure("Failed to create blog")), blogs)
    ensures session.Some? && body.BlogBody? && MissingFields(body) ==>
      r == (Json(400, Failure("Title, slug, excerpt, and content are required")), blogs)
    ensures session.Some? && body.BlogBody? && !MissingFields(body) && body.slug.value in blogs ==>
      r == (Json(400, Failure("Blog with this slug already exists")), blogs)
    ensures session.Some? && body.BlogBody? && !MissingFields(body) && body.slug.value !in blogs ==>
      var blog := NewBlog(body, session.value.userId, nowMs);
      r == (Json(200, Created(blog)), blogs[body.slug.value := blog])
  {
    if session.None? then (Json(401, Failure("Unauthorized")), blogs)
    else if body.Malformed? then (Json(500, Failure("Failed to create blog")), blogs)
    else if MissingFields(body) then (Json(400, Failure("Title, slug, excerpt, and content are required")), blogs)
    else if body.slug.value in blogs then (Json(400, Failure("Blog with this slug already exists")), blogs)
    else
      var blog := NewBlog(body, session.value.userId, nowMs);
      (Json(200, Created(blog)), blogs[body.slug.value := blog])
  }

  /** Creation never touches an existing blog and keeps every row under its own slug. */
  lemma CreateKeepsSlugsUnique(session: Option<Session.SessionData>, body: BlogBody, blogs: map<string, Blog>, nowMs: int)
    requires KeyedBySlug(blogs)
    ensures var blogs' := Create(session, body, blogs, nowMs).1;
      KeyedBySlug(blogs') &&
      (forall s :: s in blogs ==> s in blogs' && blogs'[s] == blogs[s]) &&
      |blogs'.Keys - blogs.Keys| <= 1 &&
      (Create(session, body, blogs, nowMs).0.status != 200 ==> blogs' == blogs)
  {
    var blogs' := Create(session, body, blogs, nowMs).1;
    if blogs' != blogs {
      assert blogs'.Keys - blogs.Keys == {body.slug.value};
    }
  }

  /** A body with only the four required fields gets the documented defaults. */
  lemma MinimalBodyDefaults(session: Session.SessionData, title: string, slug: string, excerpt: string, content: string,
                            blogs: map<string, Blog>, nowMs: int)
    requires title != "" && slug != "" && excerpt != "" && content != "" && slug !in blogs
    ensures var body := BlogBody(Some(title), Some(slug), Some(excerpt), Some(content), None, None, None,
                                 None, None, None, None, None, None);
      var reply := Create(Some(session), body, blogs, nowMs).0;
      reply.status == 200 && reply.body.Created? &&
      !reply.body.blog.isPublished && !reply.body.blog.isFeatured && reply.body.blog.status == "DRAFT" &&
      reply.body.blog.publishedAt.None? && reply.body.blog.authorId == session.userId && reply.body.blog.images == []
  {
  }

  /** `publishedAt` is set exactly when the post is created published. */
  lemma PublishedAtIffPublished(b: BlogBody, authorId: string, nowMs: int)
    requires b.BlogBody? && !MissingFields(b)
    ensures NewBlog(b, authorId, nowMs).publishedAt.Some? <==> NewBlog(b, authorId, nowMs).isPublished
  {
  }

  /** `tagIds` are read and dropped: they change nothing. */
  lemma TagIdsIgnored(session: Option<Session.SessionData>, b: BlogBody, tags: Option<seq<string>>,
                      blogs: map<string, Blog>, nowMs: int)
    requires b.BlogBody?
    ensures Create(session, b, blogs, nowMs) == Create(session, b.(tagIds := tags), blogs, nowMs)
  {
  }

  /**
   * The handler tests only that a session is present, but the session comes
   * from `getSessionFromRequest`, whose `jwtVerify` refuses a token from its
   * `exp` second on: a minted token that has expired gets 401, and the table
   * is unchanged.
   */
  lemma ExpiredTokenRefused(codec: Session.Codec, env: Option<string>, user: Session.Identity, mintedMs: int,
                            cookies: map<string, string>, body: BlogBody, blogs: map<string, Blog>, nowMs: int)
    requires Session.Sound(codec)
    requires Session.CookieName in cookies && cookies[Session.CookieName] == Session.CreateSession(codec, env, user, mintedMs)
    requires cookies[Session.CookieName] != ""
    requires nowMs / 1000 >= mintedMs / 1000 + Session.SessionDuration
    ensures Create(Session.GetSessionFromRequest(codec, env, cookies, nowMs), body, blogs, nowMs)
         == (Json(401, Failure("Unauthorized")), blogs)
  {
    Session.MintThenVerify(codec, env, user, mintedMs, nowMs);
  }
}

/**
 * The `POST` half of app/api/projects/route.ts, the same ladder with the
 * project's required fields and defaults. The project table is a map keyed
 * by slug.
 */
module ProjectsApi {
  import opened Opt
  import opened Http
  import opened ContentImages
  import Session

  datatype ProjectBody =
    | Malformed
    | ProjectBody(title: Option<string>, description: Option<string>, slug: Option<string>, excerpt: Option<string>,
                  techStack: Option<seq<string>>, features: Option<seq<string>>,
                  githubUrl: Option<string>, demoUrl: Option<string>, imageUrl: Option<string>,
                  isVisible: Option<bool>, isFeatured: Option<bool>, status: Option<string>, order: Option<int>,
                  tagIds: Option<seq<string>>, images: Option<seq<ImageInput>>)

  datatype Project = Project(title: string, description: string, slug: string, excerpt: Option<string>,
                             techStack: seq<string>, features: seq<string>,
                             githubUrl: Option<string>, demoUrl: Option<string>, imageUrl: Option<string>,
                             isVisible: bool, isFeatured: bool, status: string, order: int,
                             authorId: string, images: seq<StoredImage>)

  datatype ProjectReply = Failure(error: string) | Created(project: Project)

  predicate MissingFields(b: ProjectBody)
    requires b.ProjectBody?
  {
    Falsy(b.title) || Falsy(b.description) || Falsy(b.slug)
  }

  /** The row `prisma.project.create` receives. */
  function NewProject(b: ProjectBody, authorId: string): Project
    requires b.ProjectBody? && !MissingFields(b)
  {
    Project(b.title.value, b.description.value, b.slug.value, b.excerpt,
            b.techStack.GetOr([]), b.features.GetOr([]),
            b.githubUrl, b.demoUrl, b.imageUrl,
            b.isVisible.GetOr(true), b.isFeatured.GetOr(false),
            if Falsy(b.status) then "DRAFT" else b.status.value,
            if b.order.Some? && b.order.value != 0 then b.order.value else 0,
            authorId, ImagesOf(b.images, "gallery"))
  }

  ghost predicate KeyedBySlug(projects: map<string, Project>) {
    forall s :: s in projects ==> projects[s].slug == s
  }

  /** `POST /api/projects`: the reply and the table afterwards. */
  function Create(session: Option<Session.SessionData>, body: ProjectBody, projects: map<string, Project>)
    : (r: (Reply<ProjectReply>, map<string, Project>))
    ensures session.None? ==> r == (Json(401, Failure("Unauthorized")), projects)
    ensures session.Some? && body.Malformed? ==> r == (Json(500, Failure("Failed to create project")), projects)
    ensures session.Some? && body.ProjectBody? && MissingFields(body) ==>
      r == (Json(400, Failure("Title, description, and slug are required")), projects)
    ensures session.Some? && body.ProjectBody? && !MissingFields(body) && body.slug.value in projects ==>
      r == (Json(400, Failure("Project with this slug already exists")), projects)
    ensures session.Some? && body.ProjectBody? && !MissingFields(body) && body.slug.value !in projects ==>
      var project := NewProject(body, session.value.userId);
      r == (Json(200, Created(project)), projects[body.slug.value := project])
  {
    if session.None? then (Json(401, Failure("Unauthorized")), projects)
    else if body.Malformed? then (Json(500, Failure("Failed to create project")), projects)
    else if MissingFields(body) then (Json(400, Failure("Title, description, and slug are required")), projects)
    else if body.slug.value in projects then (Json(400, Failure("Project with this slug already exists")), projects)
    else
      var project := NewProject(body, session.value.userId);
      (Json(200, Created(project)), projects[body.slug.value := project])
  }

  /** Creation never touches an existing project and keeps every row under its own slug. */
  lemma CreateKeepsSlugsUnique(session: Option<Session.SessionData>, body: ProjectBody, projects: map<string, Project>)
    requires KeyedBySlug(projects)
    ensures var projects' := Create(session, body, projects).1;
      KeyedBySlug(projects') &&
      (forall s :: s in projects ==> s in projects' && projects'[s] == projects[s]) &&
      |projects'.Keys - projects.Keys| <= 1 &&
      (Create(session, body, projects).0.status != 200 ==> projects' == projects)
  {
    var projects' := Create(session, body, projects).1;
    if projects' != projects {
      assert projects'.Keys - projects.Keys == {body.slug.value};
    }
  }

  /** A body with only the three required fields gets the documented defaults. */
  lemma MinimalBodyDefaults(session: Session.SessionData, title: string, description: string, slug: string,
                            projects: map<string, Project>)
    requires title != "" && description != "" && slug != "" && slug !in projects
    ensures var body := ProjectBody(Some(title), Some(description), Some(slug), None, None, None, None, None, None,
                                    None, None, None, None, None, None);
      var reply := Create(Some(session), body, projects).0;
      reply.status == 200 && reply.body.Created? &&
      reply.body.project.techStack == [] && reply.body.project.features == [] &&
      reply.body.project.isVisible && !reply.body.project.isFeatured && reply.body.project.status == "DRAFT" &&
      reply.body.project.order == 0 && reply.body.project.authorId == session.userId
  {
  }

  /** An explicit `isVisible: false` is kept (`??` only replaces a missing value), while `order: 0` and a missing order agree. */
  lemma ExplicitFalseKept(b: ProjectBody, authorId: string)
    requires b.ProjectBody? && !MissingFields(b) && b.isVisible == Some(false)
    ensures !NewProject(b, authorId).isVisible
    ensures NewProject(b.(order := Some(0)), authorId).order == NewProject(b.(order := None), authorId).order == 0
  {
  }

  /** Project images default to the gallery kind. */
  lemma ImagesDefaultToGallery(b: ProjectBody, authorId: string, k: nat)
    requires b.ProjectBody? && !MissingFields(b) && b.images.Some? && k < |b.images.value|
    requires b.images.value[k].kind.None?
    ensures NewProject(b, authorId).images[k].kind == "gallery"
  {
  }
}

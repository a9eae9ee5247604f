/**
  `routes/establishments.js`: creating an establishment with its login user. The
  establishment gets a code no establishment uses yet and a URL slug derived from
  its name, numbered `-1`, `-2`, … until it is free.
 */
module EstablishmentsRoute {
  import opened Wrappers
  import opened Store
  import Keys
  import CodeGenerator

  /** The request fields the creation uses; password hashing is not modelled. */
  datatype EstablishmentRequest = EstablishmentRequest(
    name: Option<string>,
    email: Option<string>,
    password: Option<string>,
    establishmentName: Option<string>,
    managerId: Option<nat>)

  function CodesTaken(db: Db): (codes: set<string>)
    ensures forall e :: e in db.establishments ==> db.establishments[e].code in codes
    ensures forall c :: c in codes ==> exists e :: e in db.establishments && db.establishments[e].code == c
  {
    set e | e in db.establishments :: db.establishments[e].code
  }

  function SlugsTaken(db: Db): (slugs: set<string>)
    ensures forall e :: e in db.establishments ==> db.establishments[e].slug in slugs
    ensures forall s :: s in slugs ==> exists e :: e in db.establishments && db.establishments[e].slug == s
  {
    set e | e in db.establishments :: db.establishments[e].slug
  }

  /** No two establishments share a code, nor a slug. */
  predicate UniqueCodesAndSlugs(db: Db) {
    forall a, b :: a in db.establishments && b in db.establishments && a != b ==>
      db.establishments[a].code != db.establishments[b].code && db.establishments[a].slug != db.establishments[b].slug
  }

  /** A suffixed slug is longer than its base, so it never equals it. */
  lemma SuffixIsNotBase(base: string, k: nat)
    ensures CodeGenerator.AddSlugSuffix(base, k) != base
  {
  }

  /** The slug the loop tries at each count: the base first, then `base-1`, `base-2`, … */
  function Candidate(base: string, counter: nat): string {
    if counter == 0 then base else CodeGenerator.AddSlugSuffix(base, counter)
  }

  /** The slugs tried before reaching a count. */
  function Tried(base: string, counter: nat): set<string> {
    set k | 0 <= k < counter :: Candidate(base, k)
  }

  /** Different counts give different candidates. */
  lemma CandidateInjective(base: string, a: nat, b: nat)
    requires Candidate(base, a) == Candidate(base, b)
    ensures a == b
  {
    if a == 0 && b != 0 {
      SuffixIsNotBase(base, b);
    } else if a != 0 && b == 0 {
      SuffixIsNotBase(base, a);
    } else if a != 0 {
      CodeGenerator.AddSlugSuffixInjective(base, a, b);
    }
  }

  /** Trying one more candidate adds exactly one new slug to those tried. */
  lemma TriedStep(base: string, counter: nat)
    ensures Candidate(base, counter) !in Tried(base, counter)
    ensures Tried(base, counter + 1) == Tried(base, counter) + {Candidate(base, counter)}
  {
    if Candidate(base, counter) in Tried(base, counter) {
      var k :| 0 <= k < counter && Candidate(base, k) == Candidate(base, counter);
      CandidateInjective(base, k, counter);
    }
  }

  /**
    The slug loop: the base slug if free, else the first of `base-1`, `base-2`, …
    that is free. Each candidate is new, so the loop ends within `|taken| + 1` rounds.
   */
  method UniqueSlug(base: string, taken: set<string>) returns (slug: string, counter: nat)
    ensures slug !in taken
    ensures counter == 0 ==> slug == base
    ensures counter > 0 ==> && slug == CodeGenerator.AddSlugSuffix(base, counter) && base in taken
                            && forall k :: 1 <= k < counter ==> CodeGenerator.AddSlugSuffix(base, k) in taken
  {
    slug := base;
    counter := 0;
    while slug in taken
      invariant slug == Candidate(base, counter)
      invariant Tried(base, counter) <= taken
      decreases |taken - Tried(base, counter)|
    {
      TriedStep(base, counter);
      assert taken - Tried(base, counter + 1) == (taken - Tried(base, counter)) - {slug};
      counter := counter + 1;
      slug := Candidate(base, counter);
    }
    if counter > 0 {
      TriedAreTaken(base, counter, taken);
    }
  }

  /** Every slug tried before a count was taken: the base and each earlier number. */
  lemma TriedAreTaken(base: string, counter: nat, taken: set<string>)
    requires counter > 0 && Tried(base, counter) <= taken
    ensures base in taken
    ensures forall k :: 1 <= k < counter ==> CodeGenerator.AddSlugSuffix(base, k) in taken
  {
    assert Candidate(base, 0) in Tried(base, counter);
    forall k | 1 <= k < counter
      ensures CodeGenerator.AddSlugSuffix(base, k) in taken
    {
      assert Candidate(base, k) in Tried(base, counter);
    }
  }

  /**
    The code loop over the generator's successive attempts: the first attempt no
    establishment uses, `None` when every attempt is taken.
   */
  function FreshCode(db: Db, attempts: seq<seq<nat>>): (r: Option<string>)
    ensures r.None? <==> forall i :: 0 <= i < |attempts| ==> CodeGenerator.EstablishmentCode(attempts[i]) in CodesTaken(db)
    ensures r.Some? ==> r.value !in CodesTaken(db)
    ensures r.Some? ==> exists i ::
      (&& 0 <= i < |attempts| && r.value == CodeGenerator.EstablishmentCode(attempts[i])
       && forall j :: 0 <= j < i ==> CodeGenerator.EstablishmentCode(attempts[j]) in CodesTaken(db))
  {
    var candidates := seq(|attempts|, i requires 0 <= i < |attempts| => CodeGenerator.EstablishmentCode(attempts[i]));
    assert forall i :: 0 <= i < |attempts| ==> candidates[i] == CodeGenerator.EstablishmentCode(attempts[i]);
    CodeGenerator.FirstFresh(candidates, CodesTaken(db))
  }

  /** Adding an establishment whose code and slug are both unused keeps codes and slugs unique. */
  lemma InsertKeepsUnique(db: Db, e: nat, est: Establishment)
    requires UniqueCodesAndSlugs(db) && e !in db.establishments
    requires est.code !in CodesTaken(db) && est.slug !in SlugsTaken(db)
    ensures UniqueCodesAndSlugs(db.(establishments := db.establishments[e := est]))
  {
  }

  /** The slug the loop settles on is the base or one of its numbered forms. */
  ghost predicate SlugOf(base: string, slug: string) {
    slug == base || exists k: nat :: k >= 1 && slug == CodeGenerator.AddSlugSuffix(base, k)
  }

  /** The two inserts: the login user, then the establishment holding the code and slug. */
  function AddEstablishment(db: Db, req: EstablishmentRequest, code: string, slug: string): (r: (Db, nat))
    requires req.establishmentName.Some?
    ensures var (db', e) := r;
      && e !in db.establishments && e in db'.establishments
      && var est := db'.establishments[e];
      && db'.establishments == db.establishments[e := est]
      && est.userId !in db.users && db'.users == db.users[est.userId := User(req.name, req.email, None, None)]
      && db' == db.(users := db'.users, establishments := db'.establishments)
      && est.managerId == req.managerId && est.name == req.establishmentName.value
      && est.code == code && est.slug == slug
  {
    var u := Keys.FreshKey(db.users.Keys);
    var e := Keys.FreshKey(db.establishments.Keys);
    var est := Establishment(u, req.managerId, req.establishmentName.value, code, slug, None, 0.0, 0.0);
    (db.(users := db.users[u := User(req.name, req.email, None, None)], establishments := db.establishments[e := est]), e)
  }

  /**
    `POST /establishments`, in one transaction: the user row, a fresh code from the
    generator's successive attempts, the free slug, then the establishment row. A
    missing password or establishment name throws and rolls everything back; so does
    running out of code attempts (the source keeps retrying).
   */
  method CreateEstablishment(db: Db, req: EstablishmentRequest, codeAttempts: seq<seq<nat>>) returns (r: Result<(Db, nat)>)
    ensures req.password.None? || req.establishmentName.None? || FreshCode(db, codeAttempts).None? ==> r.Err?
    ensures r.Ok? ==> req.establishmentName.Some? && FreshCode(db, codeAttempts).Some?
    ensures r.Ok? ==> exists slug ::
      (&& slug !in SlugsTaken(db)
       && SlugOf(CodeGenerator.GenerateSlug(req.establishmentName.value), slug)
       && r.value == AddEstablishment(db, req, FreshCode(db, codeAttempts).value, slug))
  {
    if req.password.None? || req.establishmentName.None? {
      return Err("Erro ao criar estabelecimento");
    }
    var code := FreshCode(db, codeAttempts);
    if code.None? {
      return Err("Erro ao criar estabelecimento");
    }
    var base := CodeGenerator.GenerateSlug(req.establishmentName.value);
    var slug, counter := UniqueSlug(base, SlugsTaken(db));
    assert SlugOf(base, slug) by {
      if counter > 0 {
        assert slug == CodeGenerator.AddSlugSuffix(base, counter);
      }
    }
    return Ok(AddEstablishment(db, req, code.value, slug));
  }

  /** A created establishment's code and slug were both unused, so codes and slugs stay unique. */
  lemma CreationKeepsUnique(db: Db, req: EstablishmentRequest, code: string, slug: string)
    requires req.establishmentName.Some? && UniqueCodesAndSlugs(db)
    requires code !in CodesTaken(db) && slug !in SlugsTaken(db)
    ensures UniqueCodesAndSlugs(AddEstablishment(db, req, code, slug).0)
  {
    var (db', e) := AddEstablishment(db, req, code, slug);
    InsertKeepsUnique(db.(users := db'.users), e, db'.establishments[e]);
  }
}

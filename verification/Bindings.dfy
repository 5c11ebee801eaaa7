/** Durable identity bindings and legacy aliases (identity/bindings.go, identity/legacy.go). */
module Bindings {
  import opened Kernel
  import Text

  datatype User = User(username: string, provider: string, issuer: string, subject: string)

  /** The durable file: bindings as stored, and the aliases of old principals. */
  datatype File = File(bindings: seq<User>, aliases: map<string, User>)

  /** `canonical` is the account grammar; `number` reads a positive decimal subject back. */
  datatype Grammar = Grammar(canonical: string -> bool, number: string -> bool)

  predicate Plain(s: string)
  {
    s != "" && s == TrimSpace(s) && '\0' !in s && '\r' !in s && '\n' !in s
  }

  predicate ValidUser(g: Grammar, u: User)
  {
    g.canonical(u.username) && Plain(u.provider) && Plain(u.issuer) && Plain(u.subject)
  }

  predicate SameSubject(a: User, b: User)
  {
    a.provider == b.provider && a.issuer == b.issuer && a.subject == b.subject
  }

  /** `validateLegacyAlias`. */
  predicate ValidAlias(g: Grammar, legacy: string, u: User)
  {
    && ValidUser(g, u)
    && ((u.provider == "gitea" && g.number(u.subject) && legacy == "gitea:" + u.subject)
        || (u.provider == "taihu" && legacy == "taihu:" + u.username))
  }

  // ------------------------------------------------------------------- the same, as it is meant

  /** A canonical account, and provider, issuer and subject without blanks around them or line ends. */
  predicate Verified(g: Grammar, u: User)
  {
    g.canonical(u.username) && forall s :: s in [u.provider, u.issuer, u.subject] ==>
      s != "" && TrimSpace(s) == s && forall c :: c in s ==> c !in {'\0', '\r', '\n'}
  }

  /** The old name that a verified user had: by number at Gitea, by account at Taihu. */
  predicate FormerName(g: Grammar, u: User, legacy: string)
  {
    (u.provider == "gitea" && g.number(u.subject) && legacy == "gitea:" + u.subject) ||
    (u.provider == "taihu" && legacy == "taihu:" + u.username)
  }

  /** Somebody else has the account, or the identity another account. */
  ghost predicate HasRival(users: seq<User>, u: User)
  {
    exists p :: p in users && p != u &&
      (p.username == u.username || (p.provider, p.issuer, p.subject) == (u.provider, u.issuer, u.subject))
  }

  lemma ValidityMeans(g: Grammar, u: User, legacy: string)
    ensures ValidUser(g, u) <==> Verified(g, u)
    ensures ValidAlias(g, legacy, u) <==> Verified(g, u) && FormerName(g, u, legacy)
  {
    forall s ensures s in [u.provider, u.issuer, u.subject] <==> s == u.provider || s == u.issuer || s == u.subject {}
    forall s: string ensures Plain(s) <==> s != "" && TrimSpace(s) == s && forall c :: c in s ==> c !in {'\0', '\r', '\n'} {}
    if ValidUser(g, u) {
      assert Verified(g, u);
    }
    if Verified(g, u) {
      assert u.provider in [u.provider, u.issuer, u.subject] && u.issuer in [u.provider, u.issuer, u.subject] && u.subject in [u.provider, u.issuer, u.subject];
    }
  }

  predicate Clashes(a: User, b: User)
  {
    a.username == b.username || SameSubject(a, b)
  }

  ghost predicate AllValid(g: Grammar, users: seq<User>)
  {
    forall i :: 0 <= i < |users| ==> ValidUser(g, users[i])
  }

  ghost predicate OneToOne(users: seq<User>)
  {
    forall i, j :: 0 <= i < j < |users| ==> !Clashes(users[i], users[j])
  }

  /** What `readFile` accepts. */
  ghost predicate Readable(g: Grammar, f: File)
  {
    && AllValid(g, f.bindings) && OneToOne(f.bindings)
    && forall legacy :: legacy in f.aliases ==> AliasFits(g, f, legacy)
  }

  predicate AliasFits(g: Grammar, f: File, legacy: string)
    requires legacy in f.aliases
  {
    ValidAlias(g, legacy, f.aliases[legacy]) && f.aliases[legacy] in f.bindings
  }

  datatype Verdict = Bound | New | Taken

  /** The outcome of a bind, said without an order: the account is bound as it is, bound to
  somebody else, or new. */
  ghost predicate VerdictIs(users: seq<User>, u: User, v: Verdict)
  {
    match v
    case Bound => u in users
    case Taken => u !in users && exists p :: p in users && Clashes(p, u)
    case New => forall p :: p in users ==> !Clashes(p, u)
  }

  function ByName(): User -> string
  {
    (u: User) => u.username
  }

  /** `Bind` on a readable file. */
  function BindIn(f: File, u: User, v: Verdict): File
  {
    if v == New then f.(bindings := Text.SortBy(ByName(), f.bindings + [u])) else f
  }

  // ------------------------------------------------------------------------------ lemmas

  lemma NamesAreDistinct(users: seq<User>)
    requires OneToOne(users)
    ensures Text.DistinctKeys(ByName(), users)
  {
    forall i, j | 0 <= i < j < |users| ensures ByName()(users[i]) != ByName()(users[j]) {
      assert !Clashes(users[i], users[j]);
    }
  }

  ghost predicate SameUsers(a: seq<User>, b: seq<User>)
  {
    forall u :: u in a <==> u in b
  }

  /** One-to-one is about the set of users and their number, not their order. */
  lemma OneToOneSorted(a: seq<User>)
    requires OneToOne(a)
    ensures OneToOne(Text.SortBy(ByName(), a)) && SameUsers(a, Text.SortBy(ByName(), a))
  {
    var b := Text.SortBy(ByName(), a);
    NamesAreDistinct(a);
    Text.SortAscending(ByName(), a);
    forall i, j | 0 <= i < j < |b| ensures !Clashes(b[i], b[j]) {
      Text.LessIrreflexive(b[i].username);
      assert b[i].username != b[j].username;
      assert b[i] in a && b[j] in a;
      var k :| 0 <= k < |a| && a[k] == b[i];
      var l :| 0 <= l < |a| && a[l] == b[j];
      assert !Clashes(a[k], a[l]) || !Clashes(a[l], a[k]);
    }
  }

  lemma TakenIffRival(users: seq<User>, u: User, v: Verdict)
    requires OneToOne(users) && VerdictIs(users, u, v)
    ensures v == Taken <==> HasRival(users, u)
  {
    RivalIsTaken(users, u);
    if VerdictIs(users, u, Taken) {
      VerdictIsUnique(users, u, v, Taken);
    }
  }

  /** In a one-to-one list, an account is taken exactly if it has a rival. */
  lemma RivalIsTaken(users: seq<User>, u: User)
    requires OneToOne(users)
    ensures VerdictIs(users, u, Taken) <==> HasRival(users, u)
  {
    if u in users {
      var i :| 0 <= i < |users| && users[i] == u;
      forall j | 0 <= j < |users| && j != i ensures !Clashes(users[j], u) {
        assert if i < j then !Clashes(users[i], users[j]) else !Clashes(users[j], users[i]);
      }
      forall p | p in users && p != u ensures !Clashes(p, u) {
        var j :| 0 <= j < |users| && users[j] == p;
      }
    }
  }

  lemma VerdictIsUnique(users: seq<User>, u: User, v: Verdict, w: Verdict)
    requires VerdictIs(users, u, v) && VerdictIs(users, u, w)
    ensures v == w
  {
    assert Clashes(u, u);
  }

  /** The verdict does not depend on the order in which the bindings are stored. */
  lemma VerdictIgnoresOrder(a: seq<User>, b: seq<User>, u: User, v: Verdict)
    requires SameUsers(a, b)
    ensures VerdictIs(a, u, v) <==> VerdictIs(b, u, v)
  {}

  lemma AppendOneToOne(users: seq<User>, u: User)
    requires OneToOne(users) && VerdictIs(users, u, New)
    ensures OneToOne(users + [u])
  {
    forall i, j | 0 <= i < j < |users + [u]| ensures !Clashes((users + [u])[i], (users + [u])[j]) {
      assert i < |users| ==> users[i] in users;
    }
  }

  /** A bind keeps the file readable, and only ever adds a binding. */
  lemma BindKeeps(g: Grammar, f: File, u: User, v: Verdict)
    requires Readable(g, f) && ValidUser(g, u) && VerdictIs(f.bindings, u, v)
    ensures Readable(g, BindIn(f, u, v))
    ensures Extends(f, BindIn(f, u, v)) && BindIn(f, u, v).aliases == f.aliases
    ensures v != Taken ==> u in BindIn(f, u, v).bindings
  {
    if v == New {
      var all := f.bindings + [u];
      AppendOneToOne(f.bindings, u);
      OneToOneSorted(all);
      var next := BindIn(f, u, v);
      forall i | 0 <= i < |next.bindings| ensures ValidUser(g, next.bindings[i]) {
        assert next.bindings[i] in all;
      }
      forall p | p in f.bindings ensures p in next.bindings { assert p in all; }
      assert u in all;
      forall legacy | legacy in next.aliases ensures AliasFits(g, next, legacy) {
        assert AliasFits(g, f, legacy);
      }
    }
  }

  /** Setting an alias of a bound user, unless it is set already. */
  function AliasIn(f: File, legacy: string, u: User): File
  {
    if legacy in f.aliases then f else f.(aliases := f.aliases[legacy := u])
  }

  lemma AliasKeeps(g: Grammar, f: File, legacy: string, u: User)
    requires Readable(g, f) && ValidAlias(g, legacy, u) && u in f.bindings
    ensures Readable(g, AliasIn(f, legacy, u)) && Extends(f, AliasIn(f, legacy, u))
  {
    var next := AliasIn(f, legacy, u);
    AliasExtends(f, legacy, u);
    forall l | l in next.aliases ensures AliasFits(g, next, l) {
      assert l in f.aliases ==> AliasFits(g, f, l);
    }
  }

  lemma AliasExtends(f: File, legacy: string, u: User)
    ensures Extends(f, AliasIn(f, legacy, u)) && AliasIn(f, legacy, u).bindings == f.bindings
  {}

  // ------------------------------------------------------------------------------ whole runs

  /** A migration between its two locked steps: its bind has succeeded. */
  datatype Migration = Migration(legacy: string, user: User)

  datatype World = World(file: File, migrations: map<nat, Migration>)

  /** A bind; the two locked steps of a migration, each on the file as it then is; a migration that
  is given up between them. */
  datatype Step =
    | BindStep(user: User, verdict: Verdict)
    | MigrateStep(id: nat, legacy: string, user: User, verdict: Verdict)
    | AliasStep(id: nat)
    | GiveUp(id: nat)

  ghost predicate Enabled(g: Grammar, w: World, s: Step)
  {
    match s
    case BindStep(user, verdict) => ValidUser(g, user) && VerdictIs(w.file.bindings, user, verdict)
    case MigrateStep(id, legacy, user, verdict) =>
      id !in w.migrations && ValidAlias(g, legacy, user) && ValidUser(g, user) && VerdictIs(w.file.bindings, user, verdict)
    case AliasStep(id) => id in w.migrations
    case GiveUp(id) => id in w.migrations
  }

  function Next(w: World, s: Step): World
  {
    match s
    case BindStep(user, verdict) => w.(file := BindIn(w.file, user, verdict))
    case MigrateStep(id, legacy, user, verdict) =>
      World(BindIn(w.file, user, verdict), if verdict == Taken then w.migrations else w.migrations[id := Migration(legacy, user)])
    case AliasStep(id) =>
      if id in w.migrations
      then World(AliasIn(w.file, w.migrations[id].legacy, w.migrations[id].user), w.migrations - {id})
      else w
    case GiveUp(id) => w.(migrations := w.migrations - {id})
  }

  ghost predicate Run(g: Grammar, ws: seq<World>, steps: seq<Step>)
  {
    && |ws| == |steps| + 1 && ws[0] == World(File([], map[]), map[])
    && forall i :: 0 <= i < |steps| ==> Enabled(g, ws[i], steps[i]) && ws[i + 1] == Next(ws[i], steps[i])
  }

  /** The user of a migration under way is still bound. */
  predicate Prepared(g: Grammar, f: File, m: Migration)
  {
    ValidAlias(g, m.legacy, m.user) && m.user in f.bindings
  }

  ghost predicate Inv(g: Grammar, w: World)
  {
    Readable(g, w.file) && forall id :: id in w.migrations ==> Prepared(g, w.file, w.migrations[id])
  }

  /** What never goes away: bindings, and aliases with their targets. */
  ghost predicate Extends(a: File, b: File)
  {
    && (forall u :: u in a.bindings ==> u in b.bindings)
    && (forall legacy :: legacy in a.aliases ==> legacy in b.aliases && b.aliases[legacy] == a.aliases[legacy])
  }

  lemma StillPrepared(g: Grammar, f: File, next: File, migrations: map<nat, Migration>)
    requires Extends(f, next) && forall id :: id in migrations ==> Prepared(g, f, migrations[id])
    ensures forall id :: id in migrations ==> Prepared(g, next, migrations[id])
  {
    forall id | id in migrations ensures Prepared(g, next, migrations[id]) {
      assert Prepared(g, f, migrations[id]);
    }
  }

  lemma ExtendsItself(f: File)
    ensures Extends(f, f)
  {}

  lemma NextKeeps(g: Grammar, w: World, s: Step)
    requires Inv(g, w) && Enabled(g, w, s)
    ensures Inv(g, Next(w, s)) && Extends(w.file, Next(w, s).file)
  {
    match s
    case BindStep(user, verdict) => BindKeeps(g, w.file, user, verdict);
    case MigrateStep(_, _, user, verdict) => BindKeeps(g, w.file, user, verdict);
    case AliasStep(id) =>
      assert Prepared(g, w.file, w.migrations[id]);
      AliasKeeps(g, w.file, w.migrations[id].legacy, w.migrations[id].user);
    case GiveUp(_) => ExtendsItself(w.file);
    StillPrepared(g, w.file, Next(w, s).file, w.migrations);
  }

  lemma {:induction false} Reachable(g: Grammar, ws: seq<World>, steps: seq<Step>, i: nat)
    requires Run(g, ws, steps) && i < |ws|
    ensures Inv(g, ws[i])
  {
    if i > 0 {
      Reachable(g, ws, steps, i - 1);
      assert ws[i - 1 + 1] == Next(ws[i - 1], steps[i - 1]);
      NextKeeps(g, ws[i - 1], steps[i - 1]);
    }
  }

  /** Every file any interleaving of binds and migrations writes is accepted by the reader:
  usernames and external subjects correspond one to one, and aliases point at bindings, although
  the second step of a migration does not look whether its user is still bound. */
  lemma EveryFileIsReadable(g: Grammar, ws: seq<World>, steps: seq<Step>, i: nat)
    requires Run(g, ws, steps) && i < |ws|
    ensures Readable(g, ws[i].file)
  {
    Reachable(g, ws, steps, i);
  }

  lemma StepExtends(g: Grammar, ws: seq<World>, steps: seq<Step>, k: nat)
    requires Run(g, ws, steps) && k + 1 < |ws|
    ensures Extends(ws[k].file, ws[k + 1].file)
  {
    Reachable(g, ws, steps, k);
    NextKeeps(g, ws[k], steps[k]);
  }

  lemma {:induction false} ChainExtends(ws: seq<World>, i: nat, j: nat)
    requires i <= j < |ws| && forall k :: 0 <= k && k + 1 < |ws| ==> Extends(ws[k].file, ws[k + 1].file)
    ensures Extends(ws[i].file, ws[j].file)
    decreases j
  {
    if i < j {
      ChainExtends(ws, i, j - 1);
      assert Extends(ws[j - 1].file, ws[j - 1 + 1].file);
    }
  }

  /** Bindings are never removed or changed, nor are aliases. */
  lemma FilesOnlyGrow(g: Grammar, ws: seq<World>, steps: seq<Step>, i: nat, j: nat)
    requires Run(g, ws, steps) && i <= j < |ws|
    ensures Extends(ws[i].file, ws[j].file)
  {
    forall k | 0 <= k && k + 1 < |ws| ensures Extends(ws[k].file, ws[k + 1].file) {
      StepExtends(g, ws, steps, k);
    }
    ChainExtends(ws, i, j);
  }

  /** `ResolvePrincipal`. */
  function Resolve(f: File, principal: string): string
  {
    if !("gitea:" <= principal) && !("taihu:" <= principal) then principal
    else if principal in f.aliases then f.aliases[principal].username else principal
  }

  /** A legacy principal that has been migrated resolves to the same username for ever; one bound
  username can have no other account, now or later. */
  lemma ResolvedForever(g: Grammar, ws: seq<World>, steps: seq<Step>, i: nat, j: nat, legacy: string)
    requires Run(g, ws, steps) && i <= j < |ws| && legacy in ws[i].file.aliases
    ensures Resolve(ws[j].file, legacy) == Resolve(ws[i].file, legacy) == ws[i].file.aliases[legacy].username
    ensures forall u :: u in ws[j].file.bindings && Clashes(u, ws[i].file.aliases[legacy]) ==> u == ws[i].file.aliases[legacy]
  {
    FilesOnlyGrow(g, ws, steps, i, j);
    EveryFileIsReadable(g, ws, steps, i);
    EveryFileIsReadable(g, ws, steps, j);
    assert AliasFits(g, ws[i].file, legacy);
    var target := ws[i].file.aliases[legacy];
    LegacyPrefix(g, legacy, target);
    OnlyOne(ws[j].file.bindings, target);
  }

  lemma LegacyPrefix(g: Grammar, legacy: string, u: User)
    requires ValidAlias(g, legacy, u)
    ensures "gitea:" <= legacy || "taihu:" <= legacy
  {}

  lemma OnlyOne(users: seq<User>, target: User)
    requires OneToOne(users) && target in users
    ensures forall u :: u in users && Clashes(u, target) ==> u == target
  {
    forall u | u in users && Clashes(u, target) ensures u == target {
      var i :| 0 <= i < |users| && users[i] == u;
      var j :| 0 <= j < |users| && users[j] == target;
    }
  }

  // ------------------------------------------------------------------------------- the code

  class Store {
    var bindings: seq<User>
    var aliases: map<string, User>

    function Contents(): File
      reads this
    {
      File(bindings, aliases)
    }

    constructor ()
      ensures Contents() == File([], map[])
    {
      bindings, aliases := [], map[];
    }

    /** `readFile`: the pairwise check over the bindings, then the aliases. */
    method ReadFile(g: Grammar) returns (ok: bool)
      ensures ok <==> Readable(g, Contents())
    {
      for i := 0 to |bindings|
        invariant forall k :: 0 <= k < i ==> ValidUser(g, bindings[k])
        invariant OneToOne(bindings[..i])
      {
        var user := bindings[i];
        if !ValidUser(g, user) {
          return false;
        }
        for j := 0 to i
          invariant forall k :: 0 <= k < j ==> !Clashes(bindings[k], user)
        {
          if Clashes(user, bindings[j]) {
            assert Clashes(bindings[j], bindings[i]);
            return false;
          }
        }
      }
      assert bindings[..|bindings|] == bindings;
      ok := AliasesFit(g);
    }

    /** The second loop of `readFile`. */
    method AliasesFit(g: Grammar) returns (ok: bool)
      ensures ok <==> forall legacy :: legacy in aliases ==> AliasFits(g, Contents(), legacy)
    {
      var pending := aliases.Keys;
      while pending != {}
        invariant pending <= aliases.Keys
        invariant forall legacy :: legacy in aliases && legacy !in pending ==> AliasFits(g, Contents(), legacy)
        decreases pending
      {
        var legacy :| legacy in pending;
        pending := pending - {legacy};
        if !ValidAlias(g, legacy, aliases[legacy]) || aliases[legacy] !in bindings {
          assert !AliasFits(g, Contents(), legacy);
          return false;
        }
      }
      return true;
    }

    /** `Bind`, under the file lock. */
    method Bind(g: Grammar, u: User) returns (r: Result<Verdict>)
      modifies this`bindings
      ensures r.Success? <==> ValidUser(g, u) && Readable(g, old(Contents()))
      ensures r.Success? ==> VerdictIs(old(bindings), u, r.value) && Contents() == BindIn(old(Contents()), u, r.value)
      ensures r.Failure? ==> Contents() == old(Contents())
      ensures r.Failure? ==> r.error == if ValidUser(g, u) then PreconditionFailed else Unauthenticated
    {
      if !ValidUser(g, u) {
        return Failure(Unauthenticated);
      }
      var readable := ReadFile(g);
      if !readable {
        return Failure(PreconditionFailed);
      }
      for i := 0 to |bindings|
        invariant forall k :: 0 <= k < i ==> !Clashes(bindings[k], u)
        invariant Contents() == old(Contents())
      {
        var previous := bindings[i];
        if SameSubject(u, previous) {
          if previous.username != u.username {
            OthersDiffer(bindings, i, u);
            assert previous in bindings && Clashes(previous, u);
            return Success(Taken);
          }
          assert previous == u;
          return Success(Bound);
        }
        if previous.username == u.username {
          OthersDiffer(bindings, i, u);
          assert previous in bindings && Clashes(previous, u);
          return Success(Taken);
        }
      }
      bindings := Text.SortBy(ByName(), bindings + [u]);
      return Success(New);
    }

    /** `MigrateLegacyAlias`: bind the user, then set the alias, each under the lock.  Between the
    two steps other calls may have extended the file to `between`. */
    method MigrateLegacyAlias(g: Grammar, legacy: string, u: User, between: File) returns (r: Result<()>)
      requires Readable(g, Contents()) && Readable(g, between)
      requires forall v :: VerdictIs(bindings, u, v) && ValidUser(g, u) ==> Extends(BindIn(Contents(), u, v), between)
      modifies this
      ensures Readable(g, Contents()) && Extends(old(Contents()), Contents())
      ensures r.Success? ==> legacy in aliases && aliases[legacy] == u && u in bindings
      ensures r.Failure? && r.error == IdempotencyConflict ==> legacy in between.aliases && between.aliases[legacy] != u
      ensures !Verified(g, u) ==> r == Failure(Unauthenticated) && Contents() == old(Contents())
      ensures Verified(g, u) && !FormerName(g, u, legacy) ==> r == Failure(UsageInvalid) && Contents() == old(Contents())
      ensures Verified(g, u) && FormerName(g, u, legacy) && HasRival(old(bindings), u) ==> r == Failure(Forbidden) && Contents() == old(Contents())
      ensures Verified(g, u) && FormerName(g, u, legacy) && !HasRival(old(bindings), u) ==>
        if legacy in between.aliases && between.aliases[legacy] != u then r == Failure(IdempotencyConflict) && Contents() == between
        else r == Success(()) && Contents() == between.(aliases := between.aliases[legacy := u])
    {
      ValidityMeans(g, u, legacy);
      if !ValidUser(g, u) {
        return Failure(Unauthenticated);
      }
      if !ValidAlias(g, legacy, u) {
        return Failure(UsageInvalid);
      }
      ghost var users := bindings;
      var bound := Bind(g, u);
      BindKeeps(g, old(Contents()), u, bound.value);
      TakenIffRival(users, u, bound.value);
      if bound.value == Taken {
        return Failure(Forbidden);
      }
      bindings, aliases := between.bindings, between.aliases;
      r := Adopt(g, legacy, u);
    }

    /** The second locked step: the alias points at the user from now on. */
    method Adopt(g: Grammar, legacy: string, u: User) returns (r: Result<()>)
      requires Readable(g, Contents()) && ValidAlias(g, legacy, u) && u in bindings
      modifies this`aliases
      ensures Readable(g, Contents()) && Extends(old(Contents()), Contents())
      ensures if legacy in old(aliases) && old(aliases)[legacy] != u then r == Failure(IdempotencyConflict) && Contents() == old(Contents())
              else r == Success(()) && Contents() == old(Contents()).(aliases := old(aliases)[legacy := u])
    {
      if legacy in aliases {
        if aliases[legacy] != u {
          return Failure(IdempotencyConflict);
        }
        assert aliases[legacy := u] == aliases;
        return Success(());
      }
      AliasKeeps(g, Contents(), legacy, u);
      aliases := aliases[legacy := u];
      return Success(());
    }
  }

  /** A binding that shares one half of the identity rules out the exact one. */
  lemma OthersDiffer(users: seq<User>, i: nat, u: User)
    requires OneToOne(users) && i < |users| && Clashes(users[i], u) && users[i] != u
    ensures u !in users
  {
    if u in users {
      OnlyOne(users, u);
    }
  }
}

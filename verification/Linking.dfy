/**
 Users, their wallets, and the coupons that wait for an owner, with the database steps of
 issuance jobs and of address registrations interleaved in any way.
 */
module Linking {
  import opened Wrappers
  import opened Coupons

  datatype User = User(cognitoSub: string, email: string, walletAddress: Option<Address>)

  type Users = map<UserId, User>

  type JobId = nat
  type RegistrationId = nat

  datatype JobPc = LookUp | Create(found: Option<UserId>) | JobOver
  datatype Job = Job(transfer: Transfer, code: string, pc: JobPc)

  datatype RegistrationPc = FindOrCreate | SetAddress(id: UserId) | Link(id: UserId) | Registered(id: UserId) | Refused
  datatype Registration = Registration(cognitoSub: string, email: string, address: Address, pc: RegistrationPc)

  datatype State = State(cfg: Config, users: Users, coupons: Table,
                         jobs: map<JobId, Job>, registrations: map<RegistrationId, Registration>)

  // ----- queries and updates of the user collection

  predicate HasWallet(users: Users, a: Address) {
    exists u :: u in users && users[u].walletAddress == Some(a)
  }

  /** `findOne` on a field: a matching document, or nothing when there is none. */
  predicate FoundByWallet(users: Users, a: Address, found: Option<UserId>) {
    match found
    case Some(u) => u in users && users[u].walletAddress == Some(a)
    case None => !HasWallet(users, a)
  }

  predicate FoundBySub(users: Users, sub: string, found: Option<UserId>) {
    match found
    case Some(u) => u in users && users[u].cognitoSub == sub
    case None => forall u | u in users :: users[u].cognitoSub != sub
  }

  predicate EmailTaken(users: Users, email: string) {
    exists u :: u in users && users[u].email == email
  }

  predicate WalletTakenByOther(users: Users, id: UserId, a: Address) {
    exists u :: u in users && u != id && users[u].walletAddress == Some(a)
  }

  /** The three unique indexes. */
  predicate UniqueUsers(users: Users) {
    forall u, v | u in users && v in users && u != v ::
      && users[u].cognitoSub != users[v].cognitoSub
      && users[u].email != users[v].email
      && (users[u].walletAddress.Some? ==> users[u].walletAddress != users[v].walletAddress)
  }

  // ----- steps

  datatype Event =
    | JobArrives(job: JobId, transfer: Transfer, code: string)
    | JobLooksUp(job: JobId, found: Option<UserId>)
    | JobCreates(job: JobId)
    | JobFails(job: JobId)
    | RegistrationArrives(registration: RegistrationId, cognitoSub: string, email: string, address: Address)
    | RegistrationUpserts(registration: RegistrationId, found: Option<UserId>, newId: UserId)
    | RegistrationSetsAddress(registration: RegistrationId)
    | RegistrationLinks(registration: RegistrationId)
    | RegistrationFails(registration: RegistrationId)

  predicate Enabled(s: State, e: Event) {
    match e
    case JobArrives(j, _, _) => j !in s.jobs
    case JobLooksUp(j, found) =>
      && j in s.jobs && s.jobs[j].pc.LookUp? && Eligible(s.cfg, s.jobs[j].transfer)
      && FoundByWallet(s.users, ToLower(s.jobs[j].transfer.from), found)
    case JobCreates(j) => j in s.jobs && s.jobs[j].pc.Create?
    case JobFails(j) => j in s.jobs
    case RegistrationArrives(r, _, _, _) => r !in s.registrations
    case RegistrationUpserts(r, found, newId) =>
      && r in s.registrations && s.registrations[r].pc.FindOrCreate?
      && FoundBySub(s.users, s.registrations[r].cognitoSub, found) && newId !in s.users
    case RegistrationSetsAddress(r) =>
      r in s.registrations && s.registrations[r].pc.SetAddress? && s.registrations[r].pc.id in s.users
    case RegistrationLinks(r) => r in s.registrations && s.registrations[r].pc.Link?
    case RegistrationFails(r) => r in s.registrations
  }

  function Apply(s: State, e: Event): State
    requires Enabled(s, e)
  {
    match e
    case JobArrives(j, ev, code) => s.(jobs := s.jobs[j := Job(ev, code, LookUp)])
    case JobLooksUp(j, found) => s.(jobs := s.jobs[j := s.jobs[j].(pc := Create(found))])
    case JobCreates(j) =>
      var job := s.jobs[j];
      s.(coupons := Issue(s.cfg, s.coupons, job.transfer, job.code, job.pc.found),
         jobs := s.jobs[j := job.(pc := JobOver)])
    case JobFails(j) => s.(jobs := s.jobs[j := s.jobs[j].(pc := JobOver)])
    case RegistrationArrives(r, sub, email, address) =>
      s.(registrations := s.registrations[r := Registration(sub, email, address, FindOrCreate)])
    case RegistrationUpserts(r, found, newId) =>
      var reg := s.registrations[r];
      if found.Some? then GoTo(s, r, SetAddress(found.value))
      else if EmailTaken(s.users, reg.email) then GoTo(s, r, Refused)
      else GoTo(s.(users := s.users[newId := User(reg.cognitoSub, reg.email, None)]), r, SetAddress(newId))
    case RegistrationSetsAddress(r) =>
      var reg := s.registrations[r];
      var a := ToLower(reg.address);
      if WalletTakenByOther(s.users, reg.pc.id, a) then GoTo(s, r, Refused)
      else GoTo(s.(users := s.users[reg.pc.id := s.users[reg.pc.id].(walletAddress := Some(a))]), r, Link(reg.pc.id))
    case RegistrationLinks(r) =>
      var reg := s.registrations[r];
      GoTo(s.(coupons := LinkOrphans(s.coupons, reg.pc.id, reg.address)), r, Registered(reg.pc.id))
    case RegistrationFails(r) => GoTo(s, r, Refused)
  }

  function GoTo(s: State, r: RegistrationId, pc: RegistrationPc): State
    requires r in s.registrations
  {
    s.(registrations := s.registrations[r := s.registrations[r].(pc := pc)])
  }

  predicate IsRun(s: State, es: seq<Event>)
    decreases |es|
  {
    es == [] || (Enabled(s, es[0]) && IsRun(Apply(s, es[0]), es[1..]))
  }

  function Exec(s: State, es: seq<Event>): State
    requires IsRun(s, es)
    decreases |es|
  {
    if es == [] then s else Exec(Apply(s, es[0]), es[1..])
  }

  // ----- what every run keeps

  lemma InsertKeepsUnique(users: Users, id: UserId, user: User)
    requires UniqueUsers(users) && id !in users && user.walletAddress.None?
    requires FoundBySub(users, user.cognitoSub, None) && !EmailTaken(users, user.email)
    ensures UniqueUsers(users[id := user])
  {
  }

  lemma SetWalletKeepsUnique(users: Users, id: UserId, a: Address)
    requires UniqueUsers(users) && id in users && !WalletTakenByOther(users, id, a)
    ensures UniqueUsers(users[id := users[id].(walletAddress := Some(a))])
  {
  }

  lemma StepKeepsUsers(s: State, e: Event)
    requires UniqueUsers(s.users) && Enabled(s, e)
    ensures UniqueUsers(Apply(s, e).users) && s.users.Keys <= Apply(s, e).users.Keys
  {
    if e.RegistrationUpserts? {
      var reg := s.registrations[e.registration];
      if e.found.None? && !EmailTaken(s.users, reg.email) {
        InsertKeepsUnique(s.users, e.newId, User(reg.cognitoSub, reg.email, None));
      }
    } else if e.RegistrationSetsAddress? {
      var reg := s.registrations[e.registration];
      if !WalletTakenByOther(s.users, reg.pc.id, ToLower(reg.address)) {
        SetWalletKeepsUnique(s.users, reg.pc.id, ToLower(reg.address));
      }
    }
  }

  predicate SameButOwner(a: Coupon, b: Coupon) {
    b.(userId := a.userId) == a && (a.userId.Some? ==> b.userId == a.userId)
  }

  lemma StepKeepsOwners(s: State, e: Event, k: TxHash)
    requires Enabled(s, e) && k in s.coupons
    ensures k in Apply(s, e).coupons && SameButOwner(s.coupons[k], Apply(s, e).coupons[k])
  {
  }

  /** The unique indexes hold in every run, and a coupon's owner, once set, never changes. */
  lemma {:induction false} OwnersAreSetOnce(s: State, es: seq<Event>, k: TxHash)
    requires UniqueUsers(s.users) && IsRun(s, es) && k in s.coupons
    ensures UniqueUsers(Exec(s, es).users)
    ensures k in Exec(s, es).coupons && SameButOwner(s.coupons[k], Exec(s, es).coupons[k])
    decreases |es|
  {
    if es != [] {
      StepKeepsUsers(s, es[0]);
      StepKeepsOwners(s, es[0], k);
      OwnersAreSetOnce(Apply(s, es[0]), es[1..], k);
    }
  }

  // ----- whom a registration registers

  predicate Resolves(pc: RegistrationPc) {
    pc.SetAddress? || pc.Link? || pc.Registered?
  }

  /** A registration past its first step works on the user of its own subject. */
  predicate OwnUser(s: State, reg: Registration) {
    Resolves(reg.pc) ==> reg.pc.id in s.users && s.users[reg.pc.id].cognitoSub == reg.cognitoSub
  }

  lemma UsersKeepTheirSubject(s: State, e: Event, u: UserId)
    requires Enabled(s, e) && u in s.users
    ensures u in Apply(s, e).users
    ensures Apply(s, e).users[u].cognitoSub == s.users[u].cognitoSub && Apply(s, e).users[u].email == s.users[u].email
  {
  }

  lemma StepKeepsOwnUser(s: State, e: Event, r: RegistrationId)
    requires Enabled(s, e) && r in Apply(s, e).registrations
    requires r in s.registrations ==> OwnUser(s, s.registrations[r])
    ensures OwnUser(Apply(s, e), Apply(s, e).registrations[r])
  {
    if r in s.registrations && Resolves(s.registrations[r].pc) {
      UsersKeepTheirSubject(s, e, s.registrations[r].pc.id);
    }
  }

  /** Over every run, whatever a registration did it did for the user of its own subject. */
  lemma {:induction false} RegistersItsOwnUser(s: State, es: seq<Event>, r: RegistrationId)
    requires IsRun(s, es) && r in Exec(s, es).registrations
    requires r in s.registrations ==> OwnUser(s, s.registrations[r])
    ensures OwnUser(Exec(s, es), Exec(s, es).registrations[r])
    decreases |es|
  {
    if es != [] {
      if r in Apply(s, es[0]).registrations {
        StepKeepsOwnUser(s, es[0], r);
      }
      RegistersItsOwnUser(Apply(s, es[0]), es[1..], r);
    }
  }

  /** The first step is refused exactly when the subject is new and the email is another account's. */
  lemma UpsertRefusedIff(s: State, r: RegistrationId, found: Option<UserId>, newId: UserId)
    requires Enabled(s, RegistrationUpserts(r, found, newId))
    ensures var reg := s.registrations[r];
            Apply(s, RegistrationUpserts(r, found, newId)).registrations[r].pc.Refused? <==>
              && (forall u | u in s.users :: s.users[u].cognitoSub != reg.cognitoSub)
              && exists u :: u in s.users && s.users[u].email == reg.email
  {
  }

  /** The second step is refused exactly when the wallet is that of an account with another subject. */
  lemma AddressRefusedIff(s: State, r: RegistrationId)
    requires Enabled(s, RegistrationSetsAddress(r)) && OwnUser(s, s.registrations[r]) && UniqueUsers(s.users)
    ensures var reg := s.registrations[r];
            Apply(s, RegistrationSetsAddress(r)).registrations[r].pc.Refused? <==>
              exists u :: u in s.users && s.users[u].walletAddress == Some(ToLower(reg.address))
                       && s.users[u].cognitoSub != reg.cognitoSub
  {
  }

  /** And no other step of its own refuses a registration, but for a fault. */
  lemma OnlyTheseRefuse(s: State, e: Event, r: RegistrationId)
    requires Enabled(s, e) && r in s.registrations && !s.registrations[r].pc.Refused?
    requires Apply(s, e).registrations[r].pc.Refused?
    ensures e.RegistrationFails? || e.RegistrationUpserts? || e.RegistrationSetsAddress?
    ensures e.registration == r
  {
  }

  /** And when its address is set, the user's wallet is that address in lower case, and no other user changes. */
  lemma AddressSet(s: State, r: RegistrationId)
    requires Enabled(s, RegistrationSetsAddress(r))
    requires !Apply(s, RegistrationSetsAddress(r)).registrations[r].pc.Refused?
    ensures var id, users := s.registrations[r].pc.id, Apply(s, RegistrationSetsAddress(r)).users;
            && users.Keys == s.users.Keys && users[id].walletAddress == Some(ToLower(s.registrations[r].address))
            && forall u | u in users && u != id :: users[u] == s.users[u]
  {
  }

  // ----- whom a coupon gets as its owner

  /** A link gives the wallet's orphans to the user of the registration's subject, and changes no other coupon. */
  lemma LinkGivesTheRegistrant(s: State, r: RegistrationId, k: TxHash)
    requires Enabled(s, RegistrationLinks(r)) && OwnUser(s, s.registrations[r]) && k in s.coupons
    ensures var reg, cp, cp' := s.registrations[r], s.coupons[k], Apply(s, RegistrationLinks(r)).coupons[k];
            if cp.userId.None? && cp.payerAddress == ToLower(reg.address)
            then
              && cp'.userId.Some? && cp'.userId.value in s.users
              && s.users[cp'.userId.value].cognitoSub == reg.cognitoSub
            else cp' == cp
  {
  }

  /** A job's look-up finds the user with the payer's wallet, or that there is none; and its insert is for that user. */
  lemma JobGivesWhomItFound(s: State, j: JobId, found: Option<UserId>, t: State)
    requires Enabled(s, JobLooksUp(j, found)) && Enabled(t, JobCreates(j))
    requires t.jobs[j] == Apply(s, JobLooksUp(j, found)).jobs[j]
    ensures var k := ToLower(s.jobs[j].transfer.txHash);
            k !in t.coupons && k in Apply(t, JobCreates(j)).coupons ==>
              Apply(t, JobCreates(j)).coupons[k].userId == found
    ensures match found
            case Some(u) => u in s.users && s.users[u].walletAddress == Some(ToLower(s.jobs[j].transfer.from))
            case None => forall u | u in s.users :: s.users[u].walletAddress != Some(ToLower(s.jobs[j].transfer.from))
  {
  }

  // ----- orphans

  predicate NoOrphan(t: Table, a: Address) {
    forall k | k in t :: !(t[k].payerAddress == a && t[k].userId.None?)
  }

  /** A job that looked the payer up before the wallet was registered and has not inserted yet. */
  predicate Stale(job: Job, a: Address) {
    job.pc.Create? && job.pc.found.None? && ToLower(job.transfer.from) == a
  }

  predicate NoStaleJob(s: State, a: Address) {
    forall j | j in s.jobs :: !Stale(s.jobs[j], a)
  }

  lemma LowerTwice(a: Address)
    ensures ToLower(ToLower(a)) == ToLower(a)
  {
  }

  /** The last write of a registration leaves no orphan of its wallet, however many raced with it. */
  lemma LinkingClears(s: State, r: RegistrationId)
    requires Enabled(s, RegistrationLinks(r))
    ensures NoOrphan(Apply(s, RegistrationLinks(r)).coupons, ToLower(s.registrations[r].address))
  {
  }

  lemma SettledStep(s: State, e: Event, a: Address)
    requires Enabled(s, e) && HasWallet(s.users, a) && NoOrphan(s.coupons, a) && NoStaleJob(s, a)
    ensures NoOrphan(Apply(s, e).coupons, a) && NoStaleJob(Apply(s, e), a)
  {
    if e.JobCreates? {
      var job := s.jobs[e.job];
      assert !Stale(job, a);
    }
  }

  predicate StaysRegistered(s: State, es: seq<Event>, a: Address)
    requires IsRun(s, es)
    decreases |es|
  {
    HasWallet(s.users, a) && (es == [] || StaysRegistered(Apply(s, es[0]), es[1..], a))
  }

  /** Once a wallet is registered, linked and free of stale jobs, it never has an orphan while it stays registered. */
  lemma {:induction false} SettledForGood(s: State, es: seq<Event>, a: Address)
    requires IsRun(s, es) && StaysRegistered(s, es, a)
    requires NoOrphan(s.coupons, a) && NoStaleJob(s, a)
    ensures NoOrphan(Exec(s, es).coupons, a) && NoStaleJob(Exec(s, es), a)
    decreases |es|
  {
    if es != [] {
      SettledStep(s, es[0], a);
      SettledForGood(Apply(s, es[0]), es[1..], a);
    }
  }

  /**
   Repeating the registration: if it links when no stale job is left, the wallet has no orphan
   from then on - whatever orphans the first registration had left behind.
   */
  lemma RepeatedRegistrationSettles(s: State, r: RegistrationId, es: seq<Event>)
    requires Enabled(s, RegistrationLinks(r))
    requires var s' := Apply(s, RegistrationLinks(r)); var a := ToLower(s.registrations[r].address);
             NoStaleJob(s, a) && IsRun(s', es) && StaysRegistered(s', es, a)
    ensures var s' := Apply(s, RegistrationLinks(r));
            NoOrphan(Exec(s', es).coupons, ToLower(s.registrations[r].address))
  {
    LinkingClears(s, r);
    SettledForGood(Apply(s, RegistrationLinks(r)), es, ToLower(s.registrations[r].address));
  }

  // ----- exactly when a wallet has an orphan

  /** The insert of a job that looked the payer up too early and goes through. */
  predicate Orphans(s: State, e: Event, a: Address)
    requires Enabled(s, e)
  {
    && e.JobCreates?
    && var job := s.jobs[e.job];
       Stale(job, a) && Eligible(s.cfg, job.transfer) && !Duplicate(s.coupons, job.transfer, job.code)
  }

  /** The link of a registration of this wallet. */
  predicate Links(s: State, e: Event, a: Address)
    requires Enabled(s, e)
  {
    e.RegistrationLinks? && ToLower(s.registrations[e.registration].address) == a
  }

  lemma InsertOrphansIff(s: State, j: JobId, a: Address)
    requires Enabled(s, JobCreates(j)) && NoOrphan(s.coupons, a)
    ensures !NoOrphan(Apply(s, JobCreates(j)).coupons, a) <==> Orphans(s, JobCreates(j), a)
  {
    if Orphans(s, JobCreates(j), a) {
      InsertLeavesOrphan(s, j, a);
    }
  }

  /** From any state, a wallet without orphans gets one exactly by the insert of a stale job that goes through. */
  lemma OrphanIffStale(s: State, e: Event, a: Address)
    requires Enabled(s, e) && NoOrphan(s.coupons, a)
    ensures !NoOrphan(Apply(s, e).coupons, a) <==> Orphans(s, e, a)
  {
    if e.JobCreates? {
      InsertOrphansIff(s, e.job, a);
    }
  }

  /** A wallet with an orphan is rid of it exactly by a link of its own. */
  lemma OrphanStaysIffNotLinked(s: State, e: Event, a: Address)
    requires Enabled(s, e) && !NoOrphan(s.coupons, a)
    ensures NoOrphan(Apply(s, e).coupons, a) <==> Links(s, e, a)
  {
    var k :| k in s.coupons && s.coupons[k].payerAddress == a && s.coupons[k].userId.None?;
    if Links(s, e, a) {
      LinkingClears(s, e.registration);
    } else {
      assert k in Apply(s, e).coupons && Apply(s, e).coupons[k] == s.coupons[k];
    }
  }

  /** What last decided about the orphans of a wallet: true for an insert that orphans, false for a link. */
  function LastSay(s: State, es: seq<Event>, a: Address): Option<bool>
    requires IsRun(s, es)
    decreases |es|
  {
    if es == [] then None
    else
      var later := LastSay(Apply(s, es[0]), es[1..], a);
      if later.Some? then later
      else if Orphans(s, es[0], a) then Some(true)
      else if Links(s, es[0], a) then Some(false)
      else None
  }

  /**
   Over every run, however it interleaves: a wallet has an orphan in the end exactly when an insert by
   a job that looked it up too early was not followed by a link of that wallet.
   */
  lemma {:induction false} OrphanIffLastInsertUnlinked(s: State, es: seq<Event>, a: Address)
    requires IsRun(s, es)
    ensures !NoOrphan(Exec(s, es).coupons, a) <==>
            match LastSay(s, es, a) case Some(orphaned) => orphaned case None => !NoOrphan(s.coupons, a)
    decreases |es|
  {
    if es != [] {
      if Orphans(s, es[0], a) {
        InsertLeavesOrphan(s, es[0].job, a);
      } else if NoOrphan(s.coupons, a) {
        OrphanIffStale(s, es[0], a);
      } else {
        OrphanStaysIffNotLinked(s, es[0], a);
      }
      if Links(s, es[0], a) {
        LinkingClears(s, es[0].registration);
      }
      OrphanIffLastInsertUnlinked(Apply(s, es[0]), es[1..], a);
    }
  }

  lemma InsertLeavesOrphan(s: State, j: JobId, a: Address)
    requires Enabled(s, JobCreates(j)) && Orphans(s, JobCreates(j), a)
    ensures !NoOrphan(Apply(s, JobCreates(j)).coupons, a)
  {
    var t := Apply(s, JobCreates(j)).coupons;
    assert t[ToLower(s.jobs[j].transfer.txHash)].payerAddress == a;
  }

  // ----- a run that leaves a registered wallet with an orphan

  const RACE_CONFIG := Config({"m"}, 500, 10_000)
  const RACE_PAYMENT := Transfer("p", "m", 20_000, "h")

  function Empty(cfg: Config): State {
    State(cfg, map[], map[], map[], map[])
  }

  lemma Starts(s: State, e: Event, es: seq<Event>)
    requires Enabled(s, e) && IsRun(Apply(s, e), es)
    ensures IsRun(s, [e] + es) && Exec(s, [e] + es) == Exec(Apply(s, e), es)
  {
    assert ([e] + es)[1..] == es;
  }

  /** The job looks the payer up, the payer registers and is linked, and only then the job inserts. */
  function LateInsert(): seq<Event> {
    [JobArrives(0, RACE_PAYMENT, "x")] + ([JobLooksUp(0, None)] + ([RegistrationArrives(0, "sub", "mail", "p")] +
    ([RegistrationUpserts(0, None, "u")] + ([RegistrationSetsAddress(0)] + ([RegistrationLinks(0)] +
    ([JobCreates(0)] + []))))))
  }

  lemma LateInsertRuns()
    ensures IsRun(Empty(RACE_CONFIG), LateInsert())
    ensures var t := Exec(Empty(RACE_CONFIG), LateInsert());
            HasWallet(t.users, "p") && t.registrations[0].pc == Registered("u") && !NoOrphan(t.coupons, "p")
  {
    assert ToLower("m") == "m" && ToLower("h") == "h" && ToLower("p") == "p";
    var s0 := Empty(RACE_CONFIG);
    var s1 := Apply(s0, JobArrives(0, RACE_PAYMENT, "x"));
    var s2 := Apply(s1, JobLooksUp(0, None));
    var s3 := Apply(s2, RegistrationArrives(0, "sub", "mail", "p"));
    var s4 := Apply(s3, RegistrationUpserts(0, None, "u"));
    var s5 := Apply(s4, RegistrationSetsAddress(0));
    var s6 := Apply(s5, RegistrationLinks(0));
    var s7 := Apply(s6, JobCreates(0));
    assert s6.coupons == map[];
    assert s7.coupons["h"].payerAddress == "p" && s7.users["u"].walletAddress == Some("p");
    Starts(s6, JobCreates(0), []);
    Starts(s5, RegistrationLinks(0), [JobCreates(0)] + []);
    Starts(s4, RegistrationSetsAddress(0), [RegistrationLinks(0)] + ([JobCreates(0)] + []));
    Starts(s3, RegistrationUpserts(0, None, "u"),
           [RegistrationSetsAddress(0)] + ([RegistrationLinks(0)] + ([JobCreates(0)] + [])));
    Starts(s2, RegistrationArrives(0, "sub", "mail", "p"),
           [RegistrationUpserts(0, None, "u")] + ([RegistrationSetsAddress(0)] + ([RegistrationLinks(0)] +
           ([JobCreates(0)] + []))));
    Starts(s1, JobLooksUp(0, None),
           [RegistrationArrives(0, "sub", "mail", "p")] + ([RegistrationUpserts(0, None, "u")] +
           ([RegistrationSetsAddress(0)] + ([RegistrationLinks(0)] + ([JobCreates(0)] + [])))));
    Starts(s0, JobArrives(0, RACE_PAYMENT, "x"),
           [JobLooksUp(0, None)] + ([RegistrationArrives(0, "sub", "mail", "p")] +
           ([RegistrationUpserts(0, None, "u")] + ([RegistrationSetsAddress(0)] + ([RegistrationLinks(0)] +
           ([JobCreates(0)] + []))))));
  }
}

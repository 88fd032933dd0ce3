/** Any number of withAuth calls at once, the settings changing under them: an interleaving of
    small steps, with the provider mutex held from reading the credentials to remembering them. */
module WillysConcurrency {
  import opened Wrappers
  import opened Willys

  datatype Phase =
    | Waiting                              // wants the mutex
    | Holding(configured: Option<Creds>)   // has it, and has read the settings
    | LoggingIn(creds: Creds)              // client.Login is under way
    | LoggedIn(creds: Creds)               // Login succeeded; the credentials are not remembered yet
    | Calling                              // ensureLoggedIn succeeded; fn is about to start
    | Asking                               // fn is past requireAuth and talking to the shop
    | Rereading                            // AddToCart's POST was accepted; GetCart is about to start
    | AskingCart                           // GetCart is past its own requireAuth
    | Ended

  /** What fn does: a request anyone may make, one behind requireAuth, or AddToCart - a POST behind
      requireAuth, then GetCart, which passes requireAuth again. */
  datatype Kind = Open | Gated | Adding

  datatype Outcome = Fine | AuthFailed | OtherFailed

  /** What one call did so far: its successful logins, its runs of fn with the flag each found, its
      accepted POSTs, and the flag GetCart found after one. */
  datatype Mark = Login(forced: bool, creds: Creds) | Run(flag: bool) | Posted | Reread(flag: bool)

  /** `again` is set from the retry on; its login is the forced one. */
  datatype Thread = Thread(phase: Phase, again: bool, kind: Kind, marks: seq<Mark>)

  datatype World = World(configured: Option<Creds>, auth: Auth, holder: Option<int>, threads: map<int, Thread>)

  datatype Step =
    | Settings(configured: Option<Creds>)
    | Begin(t: int, kind: Kind)
    | Lock(t: int)
    | Decide(t: int)
    | LoginEnds(t: int, result: LoginResult)
    | Remember(t: int)
    | Start(t: int)
    | Answer(t: int, outcome: Outcome)
    | Recheck(t: int)

  predicate At(w: World, t: int, phase: Phase) {
    t in w.threads && w.threads[t].phase == phase
  }

  function Moved(w: World, t: int, phase: Phase): World
    requires t in w.threads
  {
    w.(threads := w.threads[t := w.threads[t].(phase := phase)])
  }

  function Released(w: World, t: int, phase: Phase): World
    requires t in w.threads
  {
    Moved(w, t, phase).(holder := None)
  }

  function Marked(w: World, t: int, mark: Mark): World
    requires t in w.threads
  {
    w.(threads := w.threads[t := w.threads[t].(marks := w.threads[t].marks + [mark])])
  }

  /** fn failed like an authentication: retry once, after a forced login. */
  function Retried(w: World, t: int): World
    requires t in w.threads
  {
    if w.threads[t].again then Moved(w, t, Ended)
    else w.(threads := w.threads[t := w.threads[t].(phase := Waiting, again := true)])
  }

  /** A step that cannot be taken changes nothing. */
  function Next(w: World, s: Step): World {
    match s
    case Settings(c) => w.(configured := c)
    case Begin(t, kind) =>
      if t in w.threads then w else w.(threads := w.threads[t := Thread(Waiting, false, kind, [])])
    case Lock(t) =>
      if At(w, t, Waiting) && w.holder.None? then Moved(w, t, Holding(w.configured)).(holder := Some(t)) else w
    case Decide(t) =>
      if t !in w.threads || !w.threads[t].phase.Holding? then w
      else
        var c := w.threads[t].phase.configured;
        if c.None? then Released(w, t, Ended)
        else if !NeedsLogin(w.auth, c.value, w.threads[t].again) then Released(w, t, Calling)
        else if c.value != w.auth.remembered then
            Moved(w, t, LoggingIn(c.value)).(auth := w.auth.(authenticated := false))
        else Moved(w, t, LoggingIn(c.value))
    case LoginEnds(t, result) =>
      if t !in w.threads || !w.threads[t].phase.LoggingIn? then w
      else
        var c := w.threads[t].phase.creds;
        (match result
        case Success =>
          Marked(Moved(w, t, LoggedIn(c)), t, Login(w.threads[t].again, c))
            .(auth := w.auth.(authenticated := true, lastLogin := Some(c)))
        case Rejected => Released(w, t, Ended).(auth := w.auth.(authenticated := false))
        case Broken => Released(w, t, Ended))
    case Remember(t) =>
      if t !in w.threads || !w.threads[t].phase.LoggedIn? then w
      else Released(w, t, Calling).(auth := w.auth.(remembered := w.threads[t].phase.creds))
    case Start(t) =>
      if !At(w, t, Calling) then w
      else
        var v := Marked(w, t, Run(w.auth.authenticated));
        if !w.threads[t].kind.Open? && !w.auth.authenticated then Retried(v, t) else Moved(v, t, Asking)
    case Answer(t, outcome) =>
      if !At(w, t, Asking) && !At(w, t, AskingCart) then w
      else if outcome.AuthFailed? then Retried(w, t)
      else if outcome.Fine? && w.threads[t].kind.Adding? && At(w, t, Asking) then
          Moved(Marked(w, t, Posted), t, Rereading)
      else Moved(w, t, Ended)
    case Recheck(t) =>
      if !At(w, t, Rereading) then w
      else
        var v := Marked(w, t, Reread(w.auth.authenticated));
        if !w.auth.authenticated then Retried(v, t) else Moved(v, t, AskingCart)
  }

  function After(w: World, steps: seq<Step>): World
    decreases |steps|
  {
    if steps == [] then w else After(Next(w, steps[0]), steps[1..])
  }

  // ---- the invariant ----------------------------------------------------------

  predicate Locked(p: Phase) {
    p.Holding? || p.LoggingIn? || p.LoggedIn?
  }

  predicate HolderKnown(w: World) {
    && (w.holder.Some? ==> w.holder.value in w.threads && Locked(w.threads[w.holder.value].phase))
    && (forall t | t in w.threads && Locked(w.threads[t].phase) :: w.holder == Some(t))
  }

  /** What the flag stands for, given what the holder of the mutex is up to. */
  predicate FlagMeans(auth: Auth, p: Phase) {
    if p.LoggedIn? then auth.authenticated && auth.lastLogin == Some(p.creds)
    else Consistent(auth) && (p.LoggingIn? && p.creds != auth.remembered ==> !auth.authenticated)
  }

  function Runs(marks: seq<Mark>): nat
    decreases |marks|
  {
    if marks == [] then 0 else Runs(marks[..|marks| - 1]) + if marks[|marks| - 1].Run? then 1 else 0
  }

  function Posts(marks: seq<Mark>): nat
    decreases |marks|
  {
    if marks == [] then 0 else Posts(marks[..|marks| - 1]) + if marks[|marks| - 1].Posted? then 1 else 0
  }

  predicate EndsInForcedLogin(marks: seq<Mark>) {
    marks != [] && marks[|marks| - 1].Login? && marks[|marks| - 1].forced
  }

  predicate EndsInRun(marks: seq<Mark>) {
    marks != [] && marks[|marks| - 1].Run?
  }

  predicate EndsInPost(marks: seq<Mark>) {
    marks != [] && marks[|marks| - 1].Posted?
  }

  /** What may come next after `marks`: a first run, or a second directly after a forced login; an
      accepted POST directly after a run; and nothing after that but a look at the cart. */
  predicate MayFollow(marks: seq<Mark>, m: Mark) {
    match m
    case Login(_, _) => !EndsInPost(marks)
    case Run(_) => Runs(marks) == 0 || (Runs(marks) == 1 && EndsInForcedLogin(marks))
    case Posted => EndsInRun(marks)
    case Reread(_) => EndsInPost(marks)
  }

  predicate Legal(marks: seq<Mark>)
    decreases |marks|
  {
    marks == [] || (Legal(marks[..|marks| - 1]) && MayFollow(marks[..|marks| - 1], marks[|marks| - 1]))
  }

  predicate InFn(p: Phase) {
    p.Asking? || p.Rereading? || p.AskingCart?
  }

  /** The last mark, as the phase has it: past a gate, the flag was found up. */
  predicate LastMark(th: Thread) {
    var n := |th.marks|;
    match th.phase
    case Asking => n > 0 && th.marks[n - 1].Run? && (!th.kind.Open? ==> th.marks[n - 1].flag)
    case Rereading => EndsInPost(th.marks)
    case AskingCart => n > 0 && th.marks[n - 1] == Reread(true)
    case LoggedIn(_) => th.again ==> EndsInForcedLogin(th.marks)
    case Calling => th.again ==> EndsInForcedLogin(th.marks)
    case Ended => true
    case _ => !EndsInPost(th.marks)
  }

  /** One run at most without a retry and one more with it. */
  predicate WellRun(th: Thread) {
    && Legal(th.marks) && LastMark(th)
    && var before := if th.again then 1 else 0;
       if InFn(th.phase) then Runs(th.marks) == before + 1
       else if th.phase.Ended? then before <= Runs(th.marks) <= before + 1
       else Runs(th.marks) == before
  }

  predicate Inv(w: World) {
    && HolderKnown(w)
    && FlagMeans(w.auth, if w.holder.Some? then w.threads[w.holder.value].phase else Waiting)
    && forall t | t in w.threads :: WellRun(w.threads[t])
  }

  lemma OneMoreMark(marks: seq<Mark>, m: Mark)
    ensures Runs(marks + [m]) == Runs(marks) + if m.Run? then 1 else 0
    ensures Posts(marks + [m]) == Posts(marks) + if m.Posted? then 1 else 0
    ensures Legal(marks + [m]) <==> Legal(marks) && MayFollow(marks, m)
  {
    assert (marks + [m])[..|marks|] == marks;
  }

  predicate Touches(s: Step, t: int) {
    !s.Settings? && s.t == t
  }

  /** A step changes no thread but its own. */
  lemma OthersStand(w: World, s: Step, t: int)
    requires t in w.threads && !Touches(s, t)
    ensures t in Next(w, s).threads && Next(w, s).threads[t] == w.threads[t]
  {
  }

  lemma LoginStepRunsWell(w: World, s: Step, t: int)
    requires t in w.threads && WellRun(w.threads[t]) && Touches(s, t) && s.LoginEnds?
    ensures t in Next(w, s).threads && WellRun(Next(w, s).threads[t])
  {
    hide Legal, Runs;
    if w.threads[t].phase.LoggingIn? {
      OneMoreMark(w.threads[t].marks, Login(w.threads[t].again, w.threads[t].phase.creds));
    }
  }

  lemma StartStepRunsWell(w: World, s: Step, t: int)
    requires t in w.threads && WellRun(w.threads[t]) && Touches(s, t) && s.Start?
    ensures t in Next(w, s).threads && WellRun(Next(w, s).threads[t])
  {
    hide Legal, Runs;
    OneMoreMark(w.threads[t].marks, Run(w.auth.authenticated));
  }

  lemma RecheckStepRunsWell(w: World, s: Step, t: int)
    requires t in w.threads && WellRun(w.threads[t]) && Touches(s, t) && s.Recheck?
    ensures t in Next(w, s).threads && WellRun(Next(w, s).threads[t])
  {
    hide Legal, Runs;
    OneMoreMark(w.threads[t].marks, Reread(w.auth.authenticated));
  }

  lemma AnswerStepRunsWell(w: World, s: Step, t: int)
    requires t in w.threads && WellRun(w.threads[t]) && Touches(s, t) && s.Answer?
    ensures t in Next(w, s).threads && WellRun(Next(w, s).threads[t])
  {
    hide Legal, Runs;
    OneMoreMark(w.threads[t].marks, Posted);
  }

  lemma PlainStepRunsWell(w: World, s: Step, t: int)
    requires t in w.threads && WellRun(w.threads[t]) && Touches(s, t)
    requires !s.LoginEnds? && !s.Start? && !s.Recheck? && !s.Answer?
    ensures t in Next(w, s).threads && WellRun(Next(w, s).threads[t])
  {
  }

  lemma StepRunsWell(w: World, s: Step, t: int)
    requires Inv(w) && t in Next(w, s).threads
    ensures WellRun(Next(w, s).threads[t])
  {
    if t in w.threads {
      if !Touches(s, t) {
        OthersStand(w, s, t);
      } else if s.LoginEnds? {
        LoginStepRunsWell(w, s, t);
      } else if s.Start? {
        StartStepRunsWell(w, s, t);
      } else if s.Recheck? {
        RecheckStepRunsWell(w, s, t);
      } else if s.Answer? {
        AnswerStepRunsWell(w, s, t);
      } else {
        PlainStepRunsWell(w, s, t);
      }
    }
  }

  lemma StepKeepsHolder(w: World, s: Step)
    requires Inv(w)
    ensures HolderKnown(Next(w, s))
  {
    var v := Next(w, s);
    forall t | t in v.threads && Locked(v.threads[t].phase) ensures v.holder == Some(t) {
      if t in w.threads && !Touches(s, t) { OthersStand(w, s, t); }
    }
    if v.holder.Some? && w.holder == v.holder && !Touches(s, v.holder.value) {
      OthersStand(w, s, v.holder.value);
    }
  }

  lemma StepKeepsFlag(w: World, s: Step)
    requires Inv(w)
    ensures HolderKnown(Next(w, s))
    ensures var v := Next(w, s);
            FlagMeans(v.auth, if v.holder.Some? then v.threads[v.holder.value].phase else Waiting)
  {
    StepKeepsHolder(w, s);
    var v := Next(w, s);
    if w.holder.Some? && !Touches(s, w.holder.value) {
      OthersStand(w, s, w.holder.value);
    }
  }

  lemma StepKeepsInv(w: World, s: Step)
    requires Inv(w)
    ensures Inv(Next(w, s))
  {
    StepKeepsFlag(w, s);
    forall t | t in Next(w, s).threads ensures WellRun(Next(w, s).threads[t]) {
      StepRunsWell(w, s, t);
    }
  }

  lemma {:induction false} RunKeepsInv(w: World, steps: seq<Step>)
    requires Inv(w)
    ensures Inv(After(w, steps))
    decreases |steps|
  {
    if steps != [] {
      StepKeepsInv(w, steps[0]);
      RunKeepsInv(Next(w, steps[0]), steps[1..]);
    }
  }

  // ---- what that says ----------------------------------------------------------

  /** A process that has just started: nothing remembered, not logged in. */
  function Fresh(configured: Option<Creds>): World {
    World(configured, Auth(false, Creds("", ""), None), None, map[])
  }

  /** Over all interleavings: when the mutex is free, an authenticated flag means the last successful
      login used the remembered credentials. */
  lemma FlagMatchesCreds(configured: Option<Creds>, steps: seq<Step>)
    ensures var w := After(Fresh(configured), steps);
            w.holder.None? && w.auth.authenticated ==> w.auth.lastLogin == Some(w.auth.remembered)
  {
    RunKeepsInv(Fresh(configured), steps);
  }

  /** The step takes the call past a requireAuth, that of fn or that of GetCart within it. */
  predicate Passes(w: World, s: Step, t: int) {
    || (!At(w, t, Asking) && At(Next(w, s), t, Asking))
    || (!At(w, t, AskingCart) && At(Next(w, s), t, AskingCart))
  }

  /** No call gets past a requireAuth unless the flag is up at that moment. */
  lemma GateNeedsFlag(configured: Option<Creds>, steps: seq<Step>, s: Step, t: int)
    requires var w := After(Fresh(configured), steps);
             t in w.threads && !w.threads[t].kind.Open? && Passes(w, s, t)
    ensures var w := After(Fresh(configured), steps);
            w.auth.authenticated && w.auth.lastLogin.Some?
            && (w.holder.None? ==> w.auth.lastLogin == Some(w.auth.remembered))
  {
    RunKeepsInv(Fresh(configured), steps);
    var w := After(Fresh(configured), steps);
    if !Touches(s, t) { OthersStand(w, s, t); }
  }

  lemma {:induction false} PostsNeedRuns(marks: seq<Mark>)
    requires Legal(marks)
    ensures Posts(marks) + (if EndsInRun(marks) then 1 else 0) <= Runs(marks)
    decreases |marks|
  {
    if marks != [] { PostsNeedRuns(marks[..|marks| - 1]); }
  }

  /** Each call runs fn at most twice, the second time directly after a forced login that succeeded,
      and each run posts at most once. */
  lemma TwoRunsAtMost(configured: Option<Creds>, steps: seq<Step>, t: int)
    requires t in After(Fresh(configured), steps).threads
    ensures var marks := After(Fresh(configured), steps).threads[t].marks;
            Posts(marks) <= Runs(marks) <= 2 && Legal(marks)
  {
    RunKeepsInv(Fresh(configured), steps);
    assert WellRun(After(Fresh(configured), steps).threads[t]);
    PostsNeedRuns(After(Fresh(configured), steps).threads[t].marks);
  }

  /** The steps of one ensureLoggedIn with nobody in between come to what the provider's method
      comes to: the sequential and the interleaved account agree. */
  lemma Uninterrupted(w: World, t: int, c: Creds, r: LoginResult)
    requires Inv(w) && w.holder.None? && At(w, t, Waiting) && w.configured == Some(c)
    ensures var locked := Next(Next(w, Lock(t)), Decide(t));
            var done := Next(Next(locked, LoginEnds(t, r)), Remember(t));
            && done.holder.None?
            && done.auth == (if NeedsLogin(w.auth, c, w.threads[t].again) then AfterLogin(w.auth, c, r) else w.auth)
            && At(done, t, if NeedsLogin(w.auth, c, w.threads[t].again) && r != Success then Ended else Calling)
  {
  }

  /** The flag falls in two places only: when the holder finds other credentials configured than
      those remembered, and when a login is rejected. */
  lemma FlagFallsIff(w: World, s: Step)
    requires Inv(w) && w.auth.authenticated
    ensures !Next(w, s).auth.authenticated <==>
            || (s.Decide? && s.t in w.threads && w.threads[s.t].phase.Holding?
                && w.threads[s.t].phase.configured.Some? && w.threads[s.t].phase.configured.value != w.auth.remembered)
            || (s.LoginEnds? && s.t in w.threads && w.threads[s.t].phase.LoggingIn? && s.result.Rejected?)
  {
  }

  /** Neither waits for calls under way: whenever the settings differ from what is remembered, the next
      call takes the session away from a call that had already passed requireAuth. */
  lemma OutrunAfterGate(w: World, t: int, u: int, c: Creds)
    requires Inv(w) && t in w.threads && InFn(w.threads[t].phase) && t != u
    requires w.holder.None? && At(w, u, Waiting) && w.configured == Some(c) && c != w.auth.remembered
    ensures var v := Next(Next(w, Lock(u)), Decide(u));
            t in v.threads && v.threads[t] == w.threads[t] && !v.auth.authenticated
            && v.holder == Some(u) && At(v, u, LoggingIn(c)) && v.configured == w.configured
  {
  }

  // ---- a product added twice -----------------------------------------------------

  /** After an accepted POST, GetCart is refused exactly when the flag is down, and on the first run
      that sends the whole call round again. */
  lemma RereadRefusedIff(w: World, t: int)
    requires Inv(w) && At(w, t, Rereading)
    ensures var v := Next(w, Recheck(t));
            t in v.threads && (v.threads[t].phase != AskingCart <==> !w.auth.authenticated)
            && (!w.auth.authenticated ==> At(v, t, if w.threads[t].again then Ended else Waiting))
  {
  }

  /** `u` finds other credentials, `t` looks at its cart meanwhile, and `u` logs in. */
  function TurnedAway(w: World, t: int, u: int): World {
    Next(Next(Next(Next(Next(w, Lock(u)), Decide(u)), Recheck(t)), LoginEnds(u, Success)), Remember(u))
  }

  /** `t` logs in, with nobody in between. */
  function LogsIn(w: World, t: int): World {
    Next(Next(Next(Next(w, Lock(t)), Decide(t)), LoginEnds(t, Success)), Remember(t))
  }

  /** `t` goes round: the login, the gate, and a POST that is accepted. */
  function RoundAgain(w: World, t: int): World {
    Next(Next(LogsIn(w, t), Start(t)), Answer(t, Fine))
  }

  lemma TurnedAwayThere(w: World, t: int, u: int, c: Creds)
    requires Inv(w) && At(w, t, Rereading) && !w.threads[t].again && t != u
    requires w.holder.None? && At(w, u, Waiting) && w.configured == Some(c) && c != w.auth.remembered
    ensures var v := TurnedAway(w, t, u);
            && v.holder.None? && v.configured == Some(c) && t in v.threads
            && v.threads[t] == w.threads[t].(phase := Waiting, again := true,
                 marks := w.threads[t].marks + [Reread(false)])
  {
    OutrunAfterGate(w, t, u, c);
  }

  lemma LoggedInAfter(w: World, t: int, c: Creds)
    requires w.holder.None? && At(w, t, Waiting) && w.configured == Some(c) && NeedsLogin(w.auth, c, w.threads[t].again)
    ensures var th := w.threads[t];
            LogsIn(w, t) == World(Some(c), Auth(true, c, Some(c)), None,
              w.threads[t := Thread(Calling, th.again, th.kind, th.marks + [Login(th.again, c)])])
  {
    var th := w.threads[t];
    var w1 := Next(w, Lock(t));
    assert w1.threads == w.threads[t := th.(phase := Holding(Some(c)))];
    var w2 := Next(w1, Decide(t));
    assert w2.threads == w.threads[t := th.(phase := LoggingIn(c))];
    var w3 := Next(w2, LoginEnds(t, Success));
    var marks := th.marks + [Login(th.again, c)];
    assert w3.threads == w.threads[t := th.(phase := LoggedIn(c), marks := marks)];
    assert Next(w3, Remember(t)).threads == w.threads[t := th.(phase := Calling, marks := marks)];
  }

  lemma RoundAgainPosts(w: World, t: int, c: Creds)
    requires w.holder.None? && At(w, t, Waiting) && w.threads[t].kind.Adding?
    requires w.configured == Some(c) && NeedsLogin(w.auth, c, w.threads[t].again)
    ensures var th := w.threads[t];
            RoundAgain(w, t) == World(Some(c), Auth(true, c, Some(c)), None,
              w.threads[t := Thread(Rereading, th.again, th.kind,
                  th.marks + [Login(th.again, c)] + [Run(true)] + [Posted])])
  {
    LoggedInAfter(w, t, c);
    var v := LogsIn(w, t);
    hide LogsIn;
    var th := v.threads[t];
    var v1 := Next(v, Start(t));
    assert v1.threads == w.threads[t := th.(phase := Asking, marks := th.marks + [Run(true)])];
    assert Next(v1, Answer(t, Fine)).threads ==
           w.threads[t := th.(phase := Rereading, marks := th.marks + [Run(true)] + [Posted])];
  }

  /** So AddToCart can post twice for one call: its first POST accepted, its session taken by a call
      that found other credentials configured, its cart refused, its retry posted - to the other
      account. It takes no failure of the shop, and holds wherever that situation arises. */
  lemma PostedTwice(w: World, t: int, u: int, c: Creds)
    requires Inv(w) && At(w, t, Rereading) && !w.threads[t].again && w.threads[t].kind.Adding? && t != u
    requires w.holder.None? && At(w, u, Waiting) && w.configured == Some(c) && c != w.auth.remembered
    ensures var v := RoundAgain(TurnedAway(w, t, u), t);
            t in v.threads && Posts(w.threads[t].marks) == 1 && Posts(v.threads[t].marks) == 2
            && v.auth.lastLogin == Some(c) && v.auth.lastLogin != Some(w.auth.remembered)
  {
    var marks := w.threads[t].marks;
    PostsNeedRuns(marks);
    TurnedAwayThere(w, t, u, c);
    var v := TurnedAway(w, t, u);
    RoundAgainPosts(v, t, c);
    hide TurnedAway, RoundAgain;
    OneMoreMark(marks, Reread(false));
    OneMoreMark(marks + [Reread(false)], Login(true, c));
    OneMoreMark(marks + [Reread(false)] + [Login(true, c)], Run(true));
    OneMoreMark(marks + [Reread(false)] + [Login(true, c)] + [Run(true)], Posted);
  }

  lemma RoundKeepsInv(w: World, t: int)
    requires Inv(w)
    ensures Inv(RoundAgain(w, t))
  {
    var w1 := Next(w, Lock(t));
    var w2 := Next(w1, Decide(t));
    var w3 := Next(w2, LoginEnds(t, Success));
    var w4 := LogsIn(w, t);
    var w5 := Next(w4, Start(t));
    hide Inv, Next;
    StepKeepsInv(w, Lock(t));
    StepKeepsInv(w1, Decide(t));
    StepKeepsInv(w2, LoginEnds(t, Success));
    StepKeepsInv(w3, Remember(t));
    StepKeepsInv(w4, Start(t));
    StepKeepsInv(w5, Answer(t, Fine));
  }

  /** The situation arises from a fresh start: one call posts, another waits, the settings change. */
  lemma PostedTwiceArises(a: Creds, b: Creds)
    requires a != b
    ensures var ready := Next(Next(Fresh(Some(a)), Begin(1, Adding)), Begin(2, Gated));
            var w := Next(RoundAgain(ready, 1), Settings(Some(b)));
            && Inv(w) && At(w, 1, Rereading) && !w.threads[1].again && w.threads[1].kind.Adding?
            && w.holder.None? && At(w, 2, Waiting) && w.configured == Some(b) && b != w.auth.remembered
  {
    var first := Next(Fresh(Some(a)), Begin(1, Adding));
    var ready := Next(first, Begin(2, Gated));
    StepKeepsInv(Fresh(Some(a)), Begin(1, Adding));
    StepKeepsInv(first, Begin(2, Gated));
    RoundAgainPosts(ready, 1, a);
    RoundKeepsInv(ready, 1);
    hide RoundAgain, Inv;
    StepKeepsInv(RoundAgain(ready, 1), Settings(Some(b)));
  }

  // ---- exactly when ----------------------------------------------------------------

  /** After an accepted POST, the look at the cart fails like an authentication for the first time: its
      gate finds the flag down, or the shop answers it with 401 or 403. */
  predicate Resends(w: World, s: Step, t: int) {
    && t in w.threads && !w.threads[t].again
    && ((s == Recheck(t) && At(w, t, Rereading) && !w.auth.authenticated)
        || (s == Answer(t, AuthFailed) && At(w, t, AskingCart)))
  }

  /** The shop accepts the POST. */
  predicate Accepted(w: World, s: Step, t: int) {
    s == Answer(t, Fine) && At(w, t, Asking) && w.threads[t].kind.Adding?
  }

  /** From the look at the cart, a call goes round again by exactly those two steps. */
  lemma ResendsIff(w: World, s: Step, t: int)
    requires Inv(w) && (At(w, t, Rereading) || At(w, t, AskingCart)) && !w.threads[t].again
    ensures At(Next(w, s), t, Waiting) <==> Resends(w, s, t)
  {
    if !Touches(s, t) { OthersStand(w, s, t); }
  }

  /** What a call has posted: nothing before its run gets there, one product once a run has, and what
      the first run posted as well if that run was sent round again. */
  predicate Tally(th: Thread, resent: bool, reposted: bool) {
    var posted := Posts(th.marks) - if resent then 1 else 0;
    && (resent ==> th.again) && (reposted <==> resent && posted == 1) && 0 <= posted <= 1
    && (th.phase.Rereading? || th.phase.AskingCart? ==> posted == 1)
    && (!th.phase.Rereading? && !th.phase.AskingCart? && !th.phase.Ended? ==> posted == 0)
  }

  lemma MarkTallies(marks: seq<Mark>)
    ensures forall flag: bool ::
              Posts(marks + [Run(flag)]) == Posts(marks) && Posts(marks + [Reread(flag)]) == Posts(marks)
    ensures forall forced: bool, c: Creds :: Posts(marks + [Login(forced, c)]) == Posts(marks)
    ensures Posts(marks + [Posted]) == Posts(marks) + 1
  {
    forall m: Mark ensures Posts(marks + [m]) == Posts(marks) + if m.Posted? then 1 else 0 { OneMoreMark(marks, m); }
  }

  lemma CartStepTallies(w: World, s: Step, t: int, resent: bool, reposted: bool)
    requires t in w.threads && Tally(w.threads[t], resent, reposted) && Touches(s, t) && (s.Answer? || s.Recheck?)
    ensures t in Next(w, s).threads
    ensures Tally(Next(w, s).threads[t], resent || Resends(w, s, t), reposted || (resent && Accepted(w, s, t)))
  {
    hide Posts;
    MarkTallies(w.threads[t].marks);
  }

  lemma OtherStepTallies(w: World, s: Step, t: int, resent: bool, reposted: bool)
    requires t in w.threads && Tally(w.threads[t], resent, reposted) && Touches(s, t) && !s.Answer? && !s.Recheck?
    ensures t in Next(w, s).threads && Tally(Next(w, s).threads[t], resent, reposted)
  {
    hide Posts;
    MarkTallies(w.threads[t].marks);
  }

  lemma StepTallies(w: World, s: Step, t: int, resent: bool, reposted: bool)
    requires t in w.threads && Tally(w.threads[t], resent, reposted)
    ensures t in Next(w, s).threads
    ensures Tally(Next(w, s).threads[t], resent || Resends(w, s, t), reposted || (resent && Accepted(w, s, t)))
  {
    hide Next, Tally, NeedsLogin;
    if !Touches(s, t) {
      OthersStand(w, s, t);
    } else if s.Answer? || s.Recheck? {
      CartStepTallies(w, s, t, resent, reposted);
    } else {
      OtherStepTallies(w, s, t, resent, reposted);
    }
  }

  lemma NewThreadTallies(w: World, s: Step, t: int)
    requires t !in w.threads
    ensures !Resends(w, s, t)
    ensures t in Next(w, s).threads ==> Tally(Next(w, s).threads[t], false, false)
  {
  }

  /** The world the k-th step of a run finds. */
  function Before(w: World, steps: seq<Step>, k: nat): World
    requires k <= |steps|
  {
    After(w, steps[..k])
  }

  lemma NoStep(w: World, steps: seq<Step>)
    ensures Before(w, steps, 0) == w
  {
  }

  lemma {:induction false} OneMoreStep(w: World, steps: seq<Step>, k: nat)
    requires k < |steps|
    ensures Before(w, steps, k + 1) == Next(Before(w, steps, k), steps[k])
    decreases k
  {
    if k == 0 {
      var v := Next(w, steps[0]);
      assert steps[..1][1..] == [];
      assert After(w, steps[..1]) == After(v, []) == v;
      assert Before(w, steps, 0) == w;
    } else {
      assert steps[..k + 1][1..] == steps[1..][..k] && steps[..k][1..] == steps[1..][..k - 1];
      OneMoreStep(Next(w, steps[0]), steps[1..], k - 1);
    }
  }

  predicate ResentBy(w: World, steps: seq<Step>, t: int, n: nat)
    requires n <= |steps|
  {
    exists i: nat | i < n :: Resends(Before(w, steps, i), steps[i], t)
  }

  predicate RepostedBy(w: World, steps: seq<Step>, t: int, n: nat)
    requires n <= |steps|
  {
    exists j: nat | j < n :: ResentBy(w, steps, t, j) && Accepted(Before(w, steps, j), steps[j], t)
  }

  lemma {:induction false} RunTallies(configured: Option<Creds>, steps: seq<Step>, t: int, n: nat)
    requires n <= |steps|
    ensures var w := Before(Fresh(configured), steps, n);
            if t in w.threads
            then Tally(w.threads[t], ResentBy(Fresh(configured), steps, t, n),
                       RepostedBy(Fresh(configured), steps, t, n))
            else !ResentBy(Fresh(configured), steps, t, n)
    decreases n
  {
    hide Tally, Next, After, Resends, Accepted;
    var f := Fresh(configured);
    if n == 0 {
      NoStep(f, steps);
    } else {
      var w, s := Before(f, steps, n - 1), steps[n - 1];
      RunTallies(configured, steps, t, n - 1);
      OneMoreStep(f, steps, n - 1);
      assert ResentBy(f, steps, t, n) <==> ResentBy(f, steps, t, n - 1) || Resends(w, s, t);
      assert RepostedBy(f, steps, t, n) <==>
             RepostedBy(f, steps, t, n - 1) || (ResentBy(f, steps, t, n - 1) && Accepted(w, s, t));
      if t in w.threads {
        StepTallies(w, s, t, ResentBy(f, steps, t, n - 1), RepostedBy(f, steps, t, n - 1));
      } else {
        NewThreadTallies(w, s, t);
      }
    }
  }

  /** Over all interleavings: a call has posted twice exactly when it was sent round again after a POST
      that was accepted, by either of the two steps, and another POST of it was accepted after that;
      and otherwise it posted once at most. */
  lemma PostedTwiceIff(configured: Option<Creds>, steps: seq<Step>, t: int)
    requires t in After(Fresh(configured), steps).threads
    ensures var f := Fresh(configured);
            var posts := Posts(After(f, steps).threads[t].marks);
            && (posts == 2 <==> RepostedBy(f, steps, t, |steps|))
            && (posts <= 1 <==> !RepostedBy(f, steps, t, |steps|))
  {
    assert steps[..|steps|] == steps;
    RunTallies(configured, steps, t, |steps|);
  }

  /** So a run in which no look at the cart fails like an authentication posts once at most. */
  lemma PostsOnce(configured: Option<Creds>, steps: seq<Step>, t: int)
    requires t in After(Fresh(configured), steps).threads
    requires forall k: nat | k < |steps| :: !Resends(Before(Fresh(configured), steps, k), steps[k], t)
    ensures Posts(After(Fresh(configured), steps).threads[t].marks) <= 1
  {
    PostedTwiceIff(configured, steps, t);
  }

  /** The everyday way there: nobody changes the settings, the flag stays up, and the shop answers the
      look at the cart with 401. The product is posted again, to the same account. */
  lemma CartRefusedPostsTwice(w: World, t: int)
    requires Inv(w) && At(w, t, Rereading) && !w.threads[t].again && w.threads[t].kind.Adding?
    requires w.holder.None? && w.auth.authenticated && w.configured == Some(w.auth.remembered)
    ensures var v := RoundAgain(Next(Next(w, Recheck(t)), Answer(t, AuthFailed)), t);
            t in v.threads && Posts(w.threads[t].marks) == 1 && Posts(v.threads[t].marks) == 2
            && v.auth.lastLogin == w.auth.lastLogin && v.configured == w.configured
  {
    var c, th := w.auth.remembered, w.threads[t];
    var marks := th.marks;
    PostsNeedRuns(marks);
    var w1 := Next(w, Recheck(t));
    assert w1.threads[t] == th.(phase := AskingCart, marks := marks + [Reread(true)]);
    var w2 := Next(w1, Answer(t, AuthFailed));
    assert w2.threads[t] == th.(phase := Waiting, again := true, marks := marks + [Reread(true)]);
    RoundAgainPosts(w2, t, c);
    hide RoundAgain;
    OneMoreMark(marks, Reread(true));
    OneMoreMark(marks + [Reread(true)], Login(true, c));
    OneMoreMark(marks + [Reread(true)] + [Login(true, c)], Run(true));
    OneMoreMark(marks + [Reread(true)] + [Login(true, c)] + [Run(true)], Posted);
  }
}

/** What a journal, as any crash or power loss has left it, can still send: exactly which POSTs, and so
    exactly when a stage that was sent can be sent with another body. */
module RuntimeSending {
  import opened Options
  import opened RuntimeJournal

  /** No power loss; callers may come, fail and die as they like. */
  predicate Calm(es: seq<Event>) {
    forall e | e in es :: !e.PowerLoss?
  }

  function FirstPost(i: Intent, b: Basis): Post {
    Post(Path(Prepare), Prepare, CreateRun(i.cell, b.binding))
  }

  /** A caller with intent `i`, basis `b` and prepare reply `r` would get as far as sending `q`:
      each file it passes is absent or holds just that, and the stage has no reply. */
  ghost predicate Sends(v: Bodies, q: Post, i: Intent, b: Basis, r: Reply) {
    && (IntentFile in v ==> v[IntentFile] == Some(IntentC(i)))
    && (BasisFile in v ==> v[BasisFile] == Some(BasisC(b)))
    && (PrepareRequest in v ==> v[PrepareRequest] == Some(PostC(FirstPost(i, b))))
    && (q.key.Prepare? ==> q == FirstPost(i, b))
    && (q.key.Start? && PrepareReply in v ==> v[PrepareReply] == Some(ReplyC(r)))
    && (q.key.Start? && StartRequest !in v ==> q.command.StartRun? && q.command.run == r.run)
    && (RequestSlot(q.key) in v ==> v[RequestSlot(q.key)] == Some(PostC(q)))
    && ReplySlot(q.key) !in v
    && q.path == Path(q.key)
  }

  ghost predicate CanSend(v: Bodies, q: Post) {
    exists i, b, r :: Sends(v, q, i, b, r)
  }

  // --- nothing else is sent ---

  /** `s` comes after `t` without a power loss. */
  ghost predicate Since(t: State, s: State) {
    && Inv(s)
    && Stays(View(t.files), View(s.files))
    && (forall slot | slot in View(t.files) :: !Writes(s, slot))
    && (StartRequest !in t.files ==> StartFollows(View(s.files)))
    && t.posts <= s.posts
    && forall p | p in s.posts[|t.posts|..] :: Held(t, s, p)
  }

  /** What a file held at first it holds for good, readable or torn. */
  ghost predicate Stays(a: Bodies, b: Bodies) {
    forall slot | slot in a :: slot in b && b[slot] == a[slot]
  }

  ghost predicate Held(t: State, s: State, p: Post) {
    CanSend(View(t.files), p) && Stored(View(s.files), RequestSlot(p.key)) == Some(PostC(p))
  }

  lemma PostingIsOpen(t: State, s: State, h: Holder)
    requires Since(t, s) && s.holder == Some(h) && h.pc.NeedReply? && ReplySlot(h.pc.stage) !in View(s.files)
    ensures CanSend(View(t.files), h.pc.post)
  {
    var v, q := View(s.files), h.pc.post;
    assert KnowsPost(v, h.intent, h.pc.stage, q);
    assert Stored(v, RequestSlot(q.key)) == Some(PostC(q)) && Labelled(PostC(q), q.key);
    var b := Stored(v, BasisFile).value.basis;
    var r := if q.key.Start? then Stored(v, PrepareReply).value.reply else Reply("", "");
    assert Sends(View(t.files), q, h.intent, b, r);
  }

  lemma SinceStays(t: State, s: State, h: Holder, choice: Choice)
    requires Since(t, s) && s.holder == Some(h)
    ensures var n := Step(s, h, choice);
            && Stays(View(t.files), View(n.files))
            && (forall slot | slot in View(t.files) :: !Writes(n, slot))
  {
    hide Knows, RequestsLabelled, StartFollows, Held, Step, View;
    StepEffect(s, h, choice);
    if h.pc.Writing? {
      assert Writes(s, h.pc.slot);
    }
  }

  lemma SincePosts(t: State, s: State, h: Holder, choice: Choice)
    requires Since(t, s) && s.holder == Some(h)
    ensures var n := Step(s, h, choice);
            t.posts <= n.posts && forall p | p in n.posts[|t.posts|..] :: Held(t, n, p)
  {
    hide Prepared, Selected, Answered, RequestsLabelled, StartFollows, Stays, Step, CanSend, View;
    var n := Step(s, h, choice);
    StepEffect(s, h, choice);
    StepGrows(s, h, choice);
    forall p | p in s.posts[|t.posts|..] ensures Held(t, n, p) {
      assert Held(t, s, p);
    }
    if n.posts != s.posts {
      PostingIsOpen(t, s, h);
      assert n.posts[|t.posts|..] == s.posts[|t.posts|..] + [h.pc.post];
    }
  }

  lemma SinceKeeps(t: State, s: State, e: Event)
    requires Since(t, s) && !e.PowerLoss?
    ensures Since(t, Next(s, e))
  {
    hide Knows, RequestsLabelled, StartFollows, Stays, CanSend, Step, View, Inv;
    EventKeeps(s, e);
    if e.Advance? && s.holder.Some? {
      SinceStays(t, s, s.holder.value, e.choice);
      SincePosts(t, s, s.holder.value, e.choice);
      if StartRequest !in t.files {
        StepFollows(s, s.holder.value, e.choice);
      }
    }
  }

  lemma {:induction false} CalmRun(t: State, es: seq<Event>)
    requires Inv(t) && t.holder.None? && Calm(es)
    ensures Since(t, Run(t, es))
    decreases |es|
  {
    hide Inv, Next, View, Held;
    if es == [] {
      BeginsSince(t);
    } else {
      CalmRun(t, es[..|es| - 1]);
      SinceKeeps(t, Run(t, es[..|es| - 1]), es[|es| - 1]);
    }
  }

  lemma BeginsSince(t: State)
    requires Inv(t) && t.holder.None?
    ensures Since(t, t)
  {}

  // --- all of it can be sent ---

  ghost predicate Leads(s: State, t: State) {
    exists es :: Calm(es) && Run(s, es) == t
  }

  lemma Then(s: State, t: State, e: Event) returns (u: State)
    requires Leads(s, t) && !e.PowerLoss?
    ensures u == Next(t, e) && Leads(s, u)
  {
    u := Next(t, e);
    var es :| Calm(es) && Run(s, es) == t;
    var more := es + [e];
    assert more[..|more| - 1] == es;
    assert Calm(more) && Run(s, more) == u;
  }

  ghost predicate At(t: State, i: Intent, pc: Pc) {
    t.holder.Some? && t.holder.value.intent == i && t.holder.value.pc == pc
  }

  /** The caller answers and is answered as `q` needs. */
  function Go(q: Post, b: Basis, r: Reply): Event {
    Advance(Choice(true, b.scope, b.live, Some(b.binding), r, q.command))
  }

  lemma Saves(s: State, t: State, h: Holder, slot: Slot, content: Content, after: Pc, go: Event) returns (u: State)
    requires Leads(s, t) && go.Advance? && Next(t, go) == Create(t, h, slot, content, after)
    ensures Leads(s, u) && At(u, h.intent, after)
    ensures View(u.files) == View(t.files)[slot := Some(content)] && u.posts == t.posts
  {
    hide Leads, View, EntriesSynced;
    u := Then(s, t, go);
    u := Then(s, u, go);
    u := Then(s, u, go);
    assert u.files == t.files[slot := File(Some(content), true, false)];
    ViewSaved(t.files, slot, content);
    u := Then(s, u, go);
  }

  lemma ViewSaved(files: Files, slot: Slot, content: Content)
    ensures View(EntriesSynced(files[slot := File(Some(content), true, false)])) == View(files)[slot := Some(content)]
  {}

  lemma ToBasis(s: State, t: State, q: Post, i: Intent, b: Basis, r: Reply) returns (u: State)
    requires Leads(s, t) && At(t, i, SaveIntent)
    requires IntentFile in View(t.files) ==> View(t.files)[IntentFile] == Some(IntentC(i))
    ensures Leads(s, u) && At(u, i, NeedBasis)
    ensures View(u.files) == View(t.files)[IntentFile := Some(IntentC(i))] && u.posts == t.posts
  {
    hide Leads;
    if IntentFile in View(t.files) {
      u := Then(s, t, Go(q, b, r));
    } else {
      u := Saves(s, t, t.holder.value, IntentFile, IntentC(i), NeedBasis, Go(q, b, r));
    }
  }

  lemma ToPrepare(s: State, t: State, q: Post, i: Intent, b: Basis, r: Reply) returns (u: State)
    requires Leads(s, t) && At(t, i, NeedBasis)
    requires BasisFile in View(t.files) ==> View(t.files)[BasisFile] == Some(BasisC(b))
    ensures Leads(s, u) && At(u, i, NeedRequest(Prepare, Some(CreateRun(i.cell, b.binding))))
    ensures View(u.files) == View(t.files)[BasisFile := Some(BasisC(b))] && u.posts == t.posts
  {
    hide Leads;
    if BasisFile in View(t.files) {
      u := Then(s, t, Go(q, b, r));
    } else {
      var told := t.holder.value.(seen := Some(Catalog(b.scope, b.live)));
      u := Saves(s, t, told, BasisFile, BasisC(b), CheckLive(b, b.live), Go(q, b, r));
    }
    u := Then(s, u, Go(q, b, r));
  }

  lemma ToRequest(s: State, t: State, i: Intent, stage: Stage, command: Option<Command>, p: Post, go: Event)
    returns (u: State)
    requires Leads(s, t) && At(t, i, NeedRequest(stage, command)) && go.Advance?
    requires p.key == stage && p.path == Path(stage) && (command.Some? ==> p.command == command.value)
    requires RequestSlot(stage) in View(t.files) ==> View(t.files)[RequestSlot(stage)] == Some(PostC(p))
    requires command.None? ==> RequestSlot(stage) in View(t.files)
    ensures Leads(s, u) && At(u, i, NeedReply(stage, p))
    ensures View(u.files) == View(t.files)[RequestSlot(stage) := Some(PostC(p))] && u.posts == t.posts
  {
    hide Leads;
    if RequestSlot(stage) in View(t.files) {
      u := Then(s, t, go);
    } else {
      u := Saves(s, t, t.holder.value, RequestSlot(stage), PostC(p), NeedReply(stage, p), go);
    }
  }

  /** The prepare stage ends with reply `r`, stored before or given now. */
  lemma ToReply(s: State, t: State, q: Post, i: Intent, b: Basis, r: Reply, p: Post) returns (u: State)
    requires Leads(s, t) && At(t, i, NeedReply(Prepare, p))
    requires PrepareReply in View(t.files) ==> View(t.files)[PrepareReply] == Some(ReplyC(r))
    ensures Leads(s, u) && At(u, i, GotReply(Prepare, r))
    ensures View(u.files) == View(t.files)[PrepareReply := Some(ReplyC(r))] && t.posts <= u.posts
  {
    hide Leads;
    if PrepareReply in View(t.files) {
      u := Then(s, t, Go(q, b, r));
    } else {
      u := Then(s, t, Go(q, b, r));
      u := Saves(s, u, u.holder.value, PrepareReply, ReplyC(r), GotReply(Prepare, r), Go(q, b, r));
    }
  }

  /** A caller that comes to an idle journal gets to send its prepare request. */
  lemma ToFirst(t: State, q: Post, i: Intent, b: Basis, r: Reply) returns (u: State)
    requires t.holder.None? && Sends(View(t.files), q, i, b, r)
    ensures Leads(t, u) && At(u, i, NeedReply(Prepare, FirstPost(i, b)))
    ensures u.posts == t.posts
    ensures View(u.files) == View(t.files)[IntentFile := Some(IntentC(i))][BasisFile := Some(BasisC(b))]
                                          [PrepareRequest := Some(PostC(FirstPost(i, b)))]
  {
    assert Run(t, []) == t && Calm([]);
    hide Leads, View;
    u := Then(t, t, Acquire(i));
    u := ToBasis(t, u, q, i, b, r);
    u := ToPrepare(t, u, q, i, b, r);
    u := ToRequest(t, u, i, Prepare, Some(FirstPost(i, b).command), FirstPost(i, b), Go(q, b, r));
  }

  /** One that finds the prepare stage done goes on to its start request. */
  lemma ToStart(s: State, t: State, q: Post, i: Intent, b: Basis, r: Reply) returns (u: State)
    requires Leads(s, t) && At(t, i, GotReply(Prepare, r)) && q.key.Start? && q.path == Path(Start)
    requires StartRequest in View(t.files) ==> View(t.files)[StartRequest] == Some(PostC(q))
    requires StartRequest !in View(t.files) ==> q.command.StartRun? && q.command.run == r.run
    ensures Leads(s, u) && At(u, i, NeedReply(Start, q)) && u.posts == t.posts
    ensures View(u.files) == View(t.files)[StartRequest := Some(PostC(q))]
  {
    hide Leads;
    u := Then(s, t, Go(q, b, r));
    var command := if StartRequest in View(t.files) then None else Some(q.command);
    u := ToRequest(s, u, i, Start, command, q, Go(q, b, r));
  }

  lemma Delivers(t: State, q: Post, i: Intent, b: Basis, r: Reply) returns (u: State)
    requires t.holder.None? && Sends(View(t.files), q, i, b, r)
    ensures Leads(t, u) && t.posts <= u.posts && q in u.posts[|t.posts|..]
  {
    hide Leads, View;
    u := ToFirst(t, q, i, b, r);
    if q.key.Start? {
      u := ToReply(t, u, q, i, b, r, FirstPost(i, b));
      u := ToStart(t, u, q, i, b, r);
    }
    var sent := Then(t, u, Go(q, b, r));
    assert sent.posts == u.posts + [q];
    assert sent.posts[|t.posts|..] == u.posts[|t.posts|..] + [q];
    u := sent;
  }

  // --- main results ---

  ghost predicate MaySend(t: State, q: Post) {
    exists u :: Leads(t, u) && t.posts <= u.posts && q in u.posts[|t.posts|..]
  }

  /** Without a further power loss an idle journal can send a POST exactly when its files leave room for it. */
  lemma SendableIff(t: State, q: Post)
    requires Inv(t) && t.holder.None?
    ensures MaySend(t, q) <==> CanSend(View(t.files), q)
  {
    if MaySend(t, q) {
      var u :| Leads(t, u) && t.posts <= u.posts && q in u.posts[|t.posts|..];
      var es :| Calm(es) && Run(t, es) == u;
      CalmRun(t, es);
      assert Held(t, u, q);
    }
    if CanSend(View(t.files), q) {
      var i, b, r :| Sends(View(t.files), q, i, b, r);
      var u := Delivers(t, q, i, b, r);
    }
  }

  /** Another body than the one sent fits the files. */
  ghost predicate Reopened(t: State) {
    exists p: Post, q: Post :: p in t.posts && q.key == p.key && q != p && CanSend(View(t.files), q)
  }

  /** The exact condition: from an idle journal some calls send a stage with two bodies exactly when
      its files leave room for another body of a stage already sent. */
  lemma {:induction false} TwoBodiesIff(t: State)
    requires Inv(t) && t.holder.None? && OneBody(t.posts)
    ensures (exists u :: Leads(t, u) && !OneBody(u.posts)) <==> Reopened(t)
  {
    hide Inv, CanSend, View, Leads;
    forall u | Leads(t, u) && !OneBody(u.posts) ensures Reopened(t) {
      SecondBodyFits(t, u);
    }
    if Reopened(t) {
      var p: Post, q: Post :| p in t.posts && q.key == p.key && q != p && CanSend(View(t.files), q);
      SendableIff(t, q);
      var u :| Leads(t, u) && t.posts <= u.posts && q in u.posts[|t.posts|..];
      assert p in u.posts && q in u.posts;
    }
  }

  lemma SecondBodyFits(t: State, u: State)
    requires Inv(t) && t.holder.None? && OneBody(t.posts) && Leads(t, u) && !OneBody(u.posts)
    ensures Reopened(t)
  {
    hide Inv, CanSend, View, Next, Stays, StartFollows;
    var es :| Calm(es) && Run(t, es) == u;
    CalmRun(t, es);
    var p: Post, q: Post :| p in u.posts && q in u.posts && p.key == q.key && p != q;
    assert u.posts == t.posts + u.posts[|t.posts|..];
    if p in t.posts {
      assert Held(t, u, q);
    } else {
      assert Held(t, u, p) && q in t.posts;
    }
  }

  /** A journal that still has the request of every POST sent leaves no room for another. */
  lemma KeptIsClosed(t: State)
    requires SentKept(t)
    ensures !Reopened(t)
  {
    hide View;
    forall p: Post, q: Post | p in t.posts && q.key == p.key && CanSend(View(t.files), q) ensures q == p {
      assert Keeps(t, p);
    }
  }

  /** Only a power loss that drops the request of a POST already sent leaves such room. */
  lemma OnlyDroppingReopens(s: State, e: Event)
    requires Inv(s) && SentKept(s) && OneBody(s.posts) && Reopened(Next(s, e))
    ensures DropsSent(s, e)
  {
    hide Inv, Next, View, DropsSent, SentKept, Reopened;
    SentKeptIff(s, e);
    if SentKept(Next(s, e)) {
      KeptIsClosed(Next(s, e));
    }
  }

  // --- the exceptions are real ---

  lemma {:induction false} RunJoins(s: State, es: seq<Event>, fs: seq<Event>)
    ensures Run(s, es + fs) == Run(Run(s, es), fs)
    decreases |fs|
  {
    if fs == [] {
      assert es + fs == es;
    } else {
      assert (es + fs)[..|es + fs| - 1] == es + fs[..|fs| - 1];
      RunJoins(s, es, fs[..|fs| - 1]);
    }
  }

  /** A calm stretch, then a power loss and another calm stretch. */
  lemma LossBetween(s: State, t: State, loss: Event, u: State) returns (es: seq<Event>, fs: seq<Event>)
    requires Leads(s, t) && Leads(Next(t, loss), u)
    ensures Run(s, es) == t && Run(s, es + fs) == u
  {
    hide Next;
    es :| Calm(es) && Run(s, es) == t;
    var gs :| Calm(gs) && Run(Next(t, loss), gs) == u;
    fs := [loss] + gs;
    assert Run(t, [loss]) == Next(t, loss) by { assert [loss][..0] == []; }
    RunJoins(t, [loss], gs);
    RunJoins(s, es, fs);
  }

  /** The first caller prepares, writes the start request and dies before it is synced. */
  lemma DiesWriting(i: Intent, b: Basis, r: Reply, p: Post) returns (u: State)
    requires p.key.Start? && p.path == Path(Start) && p.command.StartRun? && p.command.run == r.run
    ensures Leads(EMPTY, u) && u.holder.None?
    ensures StartRequest in u.files && u.files[StartRequest] == File(Some(PostC(p)), false, false)
    ensures View(u.files) == map[IntentFile := Some(IntentC(i)), BasisFile := Some(BasisC(b)),
                                 PrepareRequest := Some(PostC(FirstPost(i, b))), PrepareReply := Some(ReplyC(r)),
                                 StartRequest := Some(PostC(p))]
  {
    hide Leads;
    var go := Go(p, b, r);
    u := ToFirst(EMPTY, p, i, b, r);
    u := ToReply(EMPTY, u, p, i, b, r, FirstPost(i, b));
    u := Then(EMPTY, u, go);
    u := Then(EMPTY, u, go);
    u := Then(EMPTY, u, go);
    u := Then(EMPTY, u, Crash);
  }

  /** A caller that finds the prepare stage done writes nothing on the way. */
  lemma FindsReply(s: State, t: State, i: Intent, b: Basis, r: Reply, p: Post) returns (u: State)
    requires Leads(s, t) && t.holder.None?
    requires Stored(View(t.files), IntentFile) == Some(IntentC(i))
    requires Stored(View(t.files), BasisFile) == Some(BasisC(b))
    requires Stored(View(t.files), PrepareRequest) == Some(PostC(FirstPost(i, b)))
    requires Stored(View(t.files), PrepareReply) == Some(ReplyC(r))
    ensures Leads(s, u) && At(u, i, GotReply(Prepare, r)) && u.files == t.files && u.posts == t.posts
  {
    hide Leads, View;
    var go := Go(p, b, r);
    u := Then(s, t, Acquire(i));
    u := Then(s, u, go);
    u := Then(s, u, go);
    u := Then(s, u, go);
    assert At(u, i, NeedRequest(Prepare, Some(FirstPost(i, b).command)));
    u := Then(s, u, go);
    u := Then(s, u, go);
  }

  /** The next caller finds the start request and sends it, writing nothing. */
  lemma Resumes(s: State, t: State, i: Intent, b: Basis, r: Reply, p: Post) returns (u: State)
    requires Leads(s, t) && t.holder.None? && p.key.Start? && p.path == Path(Start)
    requires View(t.files) == map[IntentFile := Some(IntentC(i)), BasisFile := Some(BasisC(b)),
                                  PrepareRequest := Some(PostC(FirstPost(i, b))), PrepareReply := Some(ReplyC(r)),
                                  StartRequest := Some(PostC(p))]
    ensures Leads(s, u) && u.files == t.files && u.posts == t.posts + [p]
  {
    hide Leads, View;
    var go := Go(p, b, r);
    u := FindsReply(s, t, i, b, r, p);
    u := Then(s, u, go);
    u := Then(s, u, go);
    assert At(u, i, NeedReply(Start, p));
    u := Then(s, u, go);
  }

  /** From an empty directory: a caller dies before syncing the start request, the next one sends it,
      the power goes, and the one after that sends another. */
  lemma LostRequestIsReplaced(i: Intent, b: Basis, r: Reply, p: Post, q: Post) returns (es: seq<Event>)
    requires p.key.Start? && p.path == Path(Start) && p.command.StartRun? && p.command.run == r.run
    requires q.key.Start? && q.path == Path(Start) && q.command.StartRun? && q.command.run == r.run
    requires p != q
    ensures p in Run(EMPTY, es).posts && q in Run(EMPTY, es).posts && p.key == q.key
  {
    hide Leads;
    var t := DiesWriting(i, b, r, p);
    t := Resumes(EMPTY, t, i, b, r, p);
    var loss := PowerLoss(true, map[StartRequest := Vanishes]);
    var n := Next(t, loss);
    LossReads(t, loss, IntentFile);
    LossReads(t, loss, BasisFile);
    LossReads(t, loss, PrepareRequest);
    LossReads(t, loss, PrepareReply);
    LossReads(t, loss, StartRequest);
    LossReads(t, loss, StartReply);
    assert Sends(View(n.files), q, i, b, r);
    var u := Delivers(n, q, i, b, r);
    assert n.posts[|t.posts| - 1] == p;
    var fs, gs := LossBetween(EMPTY, t, loss, u);
    es := fs + gs;
  }

  /** Until a power loss the directory of a request made from nothing is unsettled. */
  ghost predicate Young(s: State) {
    && !s.root.Settled?
    && (s.root.NoRoot? ==> s.files == map[] && s.holder.None?)
  }

  lemma {:induction false} CalmStaysYoung(s: State, es: seq<Event>)
    requires Young(s) && Calm(es)
    ensures Young(Run(s, es))
    decreases |es|
  {
    if es != [] {
      CalmStaysYoung(s, es[..|es| - 1]);
    }
  }

  /** Synced files go with their directory: losing nothing else, a stage is sent with two bodies. */
  lemma LostDirectoryIsForgotten(i: Intent, b: Basis, j: Intent, c: Basis) returns (es: seq<Event>)
    ensures FirstPost(i, b) in Run(EMPTY, es).posts && FirstPost(j, c) in Run(EMPTY, es).posts
  {
    var p, q, r := FirstPost(i, b), FirstPost(j, c), Reply("", "");
    var t := Delivers(EMPTY, p, i, b, r);
    var calm :| Calm(calm) && Run(EMPTY, calm) == t;
    CalmStaysYoung(EMPTY, calm);
    var loss := PowerLoss(false, map[]);
    var n := Next(t, loss);
    assert n.files == map[];
    var u := Delivers(n, q, j, c, r);
    var fs, gs := LossBetween(EMPTY, t, loss, u);
    es := fs + gs;
  }

  /** A caller sends the prepare request, writes the reply and dies before it is synced. */
  lemma DiesReplying(i: Intent, b: Basis, r: Reply) returns (u: State)
    ensures Leads(EMPTY, u) && u.holder.None? && u.posts == [FirstPost(i, b)]
    ensures PrepareReply in u.files && u.files[PrepareReply] == File(Some(ReplyC(r)), false, false)
    ensures View(u.files) == map[IntentFile := Some(IntentC(i)), BasisFile := Some(BasisC(b)),
                                 PrepareRequest := Some(PostC(FirstPost(i, b))), PrepareReply := Some(ReplyC(r))]
  {
    hide Leads;
    var first := FirstPost(i, b);
    u := ToFirst(EMPTY, first, i, b, r);
    var before := View(u.files);
    var go := Go(first, b, r);
    u := Then(EMPTY, u, go);
    u := Then(EMPTY, u, go);
    u := Then(EMPTY, u, go);
    assert View(u.files) == before[PrepareReply := Some(ReplyC(r))];
    u := Then(EMPTY, u, Crash);
  }

  /** What is left when the power takes the unsynced prepare reply and nothing else. */
  lemma LosesReply(t: State, loss: Event)
    requires loss == PowerLoss(true, map[PrepareReply := Vanishes])
    requires PrepareReply in t.files && !t.files[PrepareReply].entrySynced
    ensures var n := Next(t, loss);
            n.holder.None? && n.posts == t.posts && View(n.files) == View(t.files) - {PrepareReply}
  {
    forall slot ensures slot in View(Next(t, loss).files) <==> slot in View(t.files) - {PrepareReply} {
      LossReads(t, loss, slot);
    }
  }

  /** A stage whose reply was stored is sent again: the reply was not synced, and the power took it. */
  lemma RepliedIsSentAgain(i: Intent, b: Basis, r: Reply) returns (es: seq<Event>, fs: seq<Event>)
    ensures Stored(View(Run(EMPTY, es).files), PrepareReply) == Some(ReplyC(r))
    ensures Run(EMPTY, es).posts == [FirstPost(i, b)]
    ensures Run(EMPTY, es + fs).posts == [FirstPost(i, b), FirstPost(i, b)]
  {
    hide Leads, Run, View, Surviving;
    var t := DiesReplying(i, b, r);
    var loss := PowerLoss(true, map[PrepareReply := Vanishes]);
    var n := Next(t, loss);
    LosesReply(t, loss);
    var first := FirstPost(i, b);
    assert Sends(View(n.files), first, i, b, r);
    var u := ToFirst(n, first, i, b, r);
    u := Then(n, u, Go(first, b, r));
    es, fs := LossBetween(EMPTY, t, loss, u);
  }

  /** The next caller trusts the reply it finds and gets as far as writing the start request. */
  lemma WritesStart(s: State, t: State, i: Intent, b: Basis, r: Reply, p: Post) returns (u: State)
    requires Leads(s, t) && t.holder.None?
    requires p.key.Start? && p.path == Path(Start) && p.command.StartRun? && p.command.run == r.run
    requires View(t.files) == map[IntentFile := Some(IntentC(i)), BasisFile := Some(BasisC(b)),
                                  PrepareRequest := Some(PostC(FirstPost(i, b))), PrepareReply := Some(ReplyC(r))]
    ensures Leads(s, u) && u.files == t.files[StartRequest := File(Some(PostC(p)), false, false)]
  {
    hide Leads, View;
    var go := Go(p, b, r);
    u := FindsReply(s, t, i, b, r, p);
    u := Then(s, u, go);
    u := Then(s, u, go);
    u := Then(s, u, go);
  }

  /** Whoever comes to a journal with a start request and no prepare reply gets a new reply,
      and sends the start request as it is. */
  lemma SendsOldStart(n: State, i: Intent, b: Basis, r: Reply, p: Post) returns (u: State)
    requires n.holder.None? && p.key.Start? && p.path == Path(Start)
    requires View(n.files) == map[IntentFile := Some(IntentC(i)), BasisFile := Some(BasisC(b)),
                                  PrepareRequest := Some(PostC(FirstPost(i, b))), StartRequest := Some(PostC(p))]
    ensures Leads(n, u) && p in u.posts
    ensures Stored(View(u.files), StartRequest) == Some(PostC(p))
    ensures Stored(View(u.files), PrepareReply) == Some(ReplyC(r))
  {
    hide Leads, View;
    u := ToFirst(n, p, i, b, r);
    u := ToReply(n, u, p, i, b, r, FirstPost(i, b));
    u := ToStart(n, u, p, i, b, r);
    var w := Then(n, u, Go(p, b, r));
    assert w.posts[|w.posts| - 1] == p && w.files == u.files;
    u := w;
  }

  /** Start and prepare come apart: a caller dies before syncing the prepare reply, the next one writes a start
      request for its run, the power takes the reply, and the one after that is given another run and
      sends the start request of the first. */
  lemma StartForAnotherRun(i: Intent, b: Basis, r: Reply, other: Reply, p: Post) returns (es: seq<Event>)
    requires p.key.Start? && p.path == Path(Start) && p.command.StartRun? && p.command.run == r.run
    ensures var t := Run(EMPTY, es);
            && p in t.posts
            && Stored(View(t.files), StartRequest) == Some(PostC(p))
            && Stored(View(t.files), PrepareReply) == Some(ReplyC(other))
  {
    hide Leads, Run, View, Next;
    var t := DiesReplying(i, b, r);
    var w := WritesStart(EMPTY, t, i, b, r, p);
    ViewUpdated(t.files, StartRequest, File(Some(PostC(p)), false, false));
    var loss := PowerLoss(true, map[PrepareReply := Vanishes]);
    var n := Next(w, loss);
    LosesReply(w, loss);
    assert View(n.files) == map[IntentFile := Some(IntentC(i)), BasisFile := Some(BasisC(b)),
                                PrepareRequest := Some(PostC(FirstPost(i, b))), StartRequest := Some(PostC(p))];
    var u := SendsOldStart(n, i, b, other, p);
    var fs, gs := LossBetween(EMPTY, w, loss, u);
    es := fs + gs;
  }
}

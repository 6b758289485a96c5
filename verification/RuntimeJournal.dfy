/** The request journal of the runtime client (deployment/local-skills/runtime_client.py:45-58, 139-217):
    one request id, one lock, six write-once files, two POST stages.  Callers compete for the lock,
    die anywhere, and leave torn files behind; the power fails; the server answers as it likes. */
module RuntimeJournal {
  import opened Options

  datatype Stage = Prepare | Start

  datatype Slot = IntentFile | BasisFile | PrepareRequest | PrepareReply | StartRequest | StartReply

  datatype Intent = Intent(name: string, cell: string, count: nat, connection: string)

  /** The installation scope, its live part, and the binding selected when the request was first made. */
  datatype Basis = Basis(scope: string, live: string, binding: string)

  datatype Command =
    | CreateRun(cell: string, binding: string)
    | StartRun(run: string, body: string)

  /** The request key is derived from the request id and the stage, the path from the stage. */
  datatype Post = Post(path: string, key: Stage, command: Command)

  datatype Reply = Reply(run: string, body: string)

  datatype Content = IntentC(intent: Intent) | BasisC(basis: Basis) | PostC(post: Post) | ReplyC(reply: Reply)

  /** A file is created, written and synced, and then its directory is synced.  Torn files have no body. */
  datatype File = File(body: Option<Content>, bodySynced: bool, entrySynced: bool)

  type Files = map<Slot, File>

  /** What can be read: which files there are, and what is in them if they are not torn. */
  type Bodies = map<Slot, Option<Content>>

  /** The directory of the request.  Nothing syncs the entry `mkdir` makes for it; it is settled
      once it has survived a power loss. */
  datatype Root = NoRoot | Unsettled | Settled

  datatype Progress = Created | Written | BodySynced

  datatype Pc =
    | SaveIntent
    | NeedBasis
    | CheckLive(basis: Basis, live: string)
    | NeedRequest(stage: Stage, command: Option<Command>)
    | NeedReply(stage: Stage, post: Post)
    | Sent(stage: Stage, post: Post)
    | GotReply(stage: Stage, reply: Reply)
    | Writing(slot: Slot, content: Content, progress: Progress, after: Pc)

  /** The installation as the catalog shows it. */
  datatype Catalog = Catalog(scope: string, live: string)

  /** `seen` is the catalog this call was given, once it has asked. */
  datatype Holder = Holder(intent: Intent, seen: Option<Catalog>, pc: Pc)

  datatype State = State(root: Root, files: Files, holder: Option<Holder>, posts: seq<Post>)

  const EMPTY := State(NoRoot, map[], None, [])

  /** What the server and the checks answer at a step. */
  datatype Choice = Choice(
    passes: bool,
    scope: string,
    live: string,
    selected: Option<string>,
    reply: Reply,
    command: Command)

  /** What a power loss makes of what was not synced. */
  datatype Fate = Kept | Tears | Vanishes

  datatype Event =
    | Acquire(intent: Intent)
    | Advance(choice: Choice)
    | Crash
    | PowerLoss(keepRoot: bool, fate: map<Slot, Fate>)

  function Path(stage: Stage): string {
    if stage.Prepare? then "/api/v1/runs" else "/api/v1/runs/start"
  }

  function RequestSlot(stage: Stage): Slot {
    if stage.Prepare? then PrepareRequest else StartRequest
  }

  function ReplySlot(stage: Stage): Slot {
    if stage.Prepare? then PrepareReply else StartReply
  }

  function View(files: Files): Bodies {
    map slot | slot in files :: files[slot].body
  }

  function Stored(v: Bodies, slot: Slot): Option<Content> {
    if slot in v then v[slot] else None
  }

  // --- the program of the lock holder ---

  function Goto(s: State, h: Holder, pc: Pc): State {
    s.(holder := Some(h.(pc := pc)))
  }

  /** An exception, or the end: the lock is released. */
  function Leave(s: State): State {
    s.(holder := None)
  }

  /** `save_new` on an absent file: exclusive creation first. */
  function Create(s: State, h: Holder, slot: Slot, content: Content, after: Pc): State {
    Goto(s.(files := s.files[slot := File(None, false, false)]), h, Writing(slot, content, Created, after))
  }

  /** `fsync` of the directory settles the entry of every file in it, not what the files hold. */
  function EntriesSynced(files: Files): Files {
    map slot | slot in files :: files[slot].(entrySynced := true)
  }

  function WriteStep(s: State, h: Holder, slot: Slot, content: Content, progress: Progress, after: Pc): State {
    match progress
    case Created =>
      Goto(s.(files := s.files[slot := File(Some(content), false, false)]), h, Writing(slot, content, Written, after))
    case Written =>
      Goto(s.(files := s.files[slot := File(Some(content), true, false)]), h, Writing(slot, content, BodySynced, after))
    case BodySynced => Goto(s.(files := EntriesSynced(s.files)), h, after)
  }

  function Step(s: State, h: Holder, choice: Choice): State {
    var v := View(s.files);
    match h.pc
    case SaveIntent =>
      if IntentFile !in v then Create(s, h, IntentFile, IntentC(h.intent), NeedBasis)
      else if v[IntentFile] == Some(IntentC(h.intent)) then Goto(s, h, NeedBasis)
      else Leave(s)
    case NeedBasis =>
      var told := h.(seen := Some(Catalog(choice.scope, choice.live)));
      if BasisFile !in v then
        if choice.selected.None? then Leave(s)
        else
          var b := Basis(choice.scope, choice.live, choice.selected.value);
          Create(s, told, BasisFile, BasisC(b), CheckLive(b, choice.live))
      else (match v[BasisFile]
            case Some(BasisC(b)) =>
              if b.scope == choice.scope then Goto(s, told, CheckLive(b, choice.live)) else Leave(s)
            case _ => Leave(s))
    case CheckLive(b, live) =>
      if StartReply !in v && live != b.live then Leave(s)
      else Goto(s, h, NeedRequest(Prepare, Some(CreateRun(h.intent.cell, b.binding))))
    case NeedRequest(stage, command) =>
      if RequestSlot(stage) !in v then
        if command.None? then Leave(s)
        else
          var post := Post(Path(stage), stage, command.value);
          Create(s, h, RequestSlot(stage), PostC(post), NeedReply(stage, post))
      else (match v[RequestSlot(stage)]
            case Some(PostC(p)) =>
              if p.path != Path(stage) || (command.Some? && p.command != command.value) then Leave(s)
              else Goto(s, h, NeedReply(stage, p))
            case _ => Leave(s))
    case NeedReply(stage, post) =>
      if ReplySlot(stage) !in v then Goto(s.(posts := s.posts + [post]), h, Sent(stage, post))
      else (match v[ReplySlot(stage)]
            case Some(ReplyC(r)) => Goto(s, h, GotReply(stage, r))
            case _ => Leave(s))
    case Sent(stage, post) =>
      if !choice.passes then Leave(s)
      else Create(s, h, ReplySlot(stage), ReplyC(choice.reply), GotReply(stage, choice.reply))
    case GotReply(stage, r) =>
      if stage.Start? || !choice.passes then Leave(s)
      else if StartRequest in v then Goto(s, h, NeedRequest(Start, None))
      else if choice.command.StartRun? && choice.command.run == r.run
      then Goto(s, h, NeedRequest(Start, Some(choice.command)))
      else Leave(s)
    case Writing(slot, content, progress, after) => WriteStep(s, h, slot, content, progress, after)
  }

  // --- power loss ---

  function FateOf(fate: map<Slot, Fate>, slot: Slot): Fate {
    if slot in fate then fate[slot] else Kept
  }

  /** The entry of the file is lost, alone or with the whole directory. */
  predicate Drops(s: State, e: Event, slot: Slot) {
    && e.PowerLoss? && slot in s.files
    && ((s.root.Unsettled? && !e.keepRoot) || (!s.files[slot].entrySynced && FateOf(e.fate, slot).Vanishes?))
  }

  /** What the file holds is lost, with its entry or without. */
  predicate Ruins(s: State, e: Event, slot: Slot) {
    || Drops(s, e, slot)
    || (e.PowerLoss? && slot in s.files && !s.files[slot].bodySynced && FateOf(e.fate, slot).Tears?)
  }

  /** What is still there when the power is back is on the disk for good. */
  function Surviving(s: State, e: Event): Files {
    map slot | slot in s.files && !Drops(s, e, slot) ::
      File(if Ruins(s, e, slot) then None else s.files[slot].body, true, true)
  }

  function RootAfter(root: Root, keepRoot: bool): Root {
    if root.Unsettled? then (if keepRoot then Settled else NoRoot) else root
  }

  function Next(s: State, e: Event): State {
    match e
    case Acquire(intent) =>
      if s.holder.Some? then s
      else s.(root := if s.root.NoRoot? then Unsettled else s.root, holder := Some(Holder(intent, None, SaveIntent)))
    case Advance(choice) => if s.holder.None? then s else Step(s, s.holder.value, choice)
    case Crash => Leave(s)
    case PowerLoss(keepRoot, _) => State(RootAfter(s.root, keepRoot), Surviving(s, e), None, s.posts)
  }

  function Run(s: State, es: seq<Event>): State {
    if es == [] then s else Next(Run(s, es[..|es| - 1]), es[|es| - 1])
  }

  // --- the invariant ---

  /** The create command that the stored intent and basis settle. */
  function Selected(v: Bodies, intent: Intent): Option<Command> {
    match Stored(v, BasisFile)
    case Some(BasisC(b)) =>
      if Stored(v, IntentFile) == Some(IntentC(intent)) then Some(CreateRun(intent.cell, b.binding)) else None
    case _ => None
  }

  ghost predicate Prepared(v: Bodies, intent: Intent) {
    && Selected(v, intent).Some?
    && Stored(v, PrepareRequest) == Some(PostC(Post(Path(Prepare), Prepare, Selected(v, intent).value)))
  }

  ghost predicate Answered(v: Bodies) {
    Stored(v, PrepareReply).Some? && Stored(v, PrepareReply).value.ReplyC?
  }

  ghost predicate NamesRun(v: Bodies, run: string) {
    Answered(v) && Stored(v, PrepareReply).value.reply.run == run
  }

  ghost predicate Labelled(c: Content, stage: Stage) {
    c.PostC? && c.post.key == stage && c.post.path == Path(stage)
  }

  ghost predicate Starts(v: Bodies, c: Content) {
    c.PostC? && c.post.command.StartRun? && NamesRun(v, c.post.command.run)
  }

  /** What the holder may rely on at each point. */
  ghost predicate Knows(v: Bodies, intent: Intent, pc: Pc) {
    match pc
    case SaveIntent => true
    case NeedBasis => Stored(v, IntentFile) == Some(IntentC(intent))
    case CheckLive(b, _) => Selected(v, intent) == Some(CreateRun(intent.cell, b.binding))
    case NeedRequest(stage, command) =>
      if stage.Prepare? then command.Some? && command == Selected(v, intent)
      else
        && Prepared(v, intent) && Answered(v)
        && (if command.Some? then command.value.StartRun? && NamesRun(v, command.value.run) else StartRequest in v)
    case NeedReply(stage, post) => KnowsPost(v, intent, stage, post)
    case Sent(stage, post) => KnowsPost(v, intent, stage, post) && ReplySlot(stage) !in v
    case GotReply(stage, reply) => Prepared(v, intent) && Stored(v, ReplySlot(stage)) == Some(ReplyC(reply))
    case Writing(slot, content, progress, after) =>
      && slot in v && v[slot] == (if progress.Created? then None else Some(content))
      && !after.Writing? && Knows(v[slot := Some(content)], intent, after)
      && (slot.PrepareRequest? ==> Labelled(content, Prepare))
      && (slot.StartRequest? ==> Labelled(content, Start) && Starts(v, content))
  }

  ghost predicate KnowsPost(v: Bodies, intent: Intent, stage: Stage, post: Post) {
    && Prepared(v, intent)
    && Stored(v, RequestSlot(stage)) == Some(PostC(post)) && post.key == stage
    && (stage.Start? ==> Answered(v))
  }

  ghost predicate RequestsLabelled(v: Bodies) {
    forall stage: Stage | Stored(v, RequestSlot(stage)).Some? :: Labelled(Stored(v, RequestSlot(stage)).value, stage)
  }

  ghost predicate Inv(s: State) {
    && RequestsLabelled(View(s.files))
    && (forall p | p in s.posts :: p.path == Path(p.key))
    && (s.holder.Some? ==> Knows(View(s.files), s.holder.value.intent, s.holder.value.pc))
  }

  lemma ViewUpdated(files: Files, slot: Slot, f: File)
    ensures View(files[slot := f]) == View(files)[slot := f.body]
  {}

  lemma CreateKeeps(s: State, h: Holder, slot: Slot, content: Content, after: Pc)
    requires Inv(s) && slot !in s.files
    requires !after.Writing? && Knows(View(s.files)[slot := Some(content)], h.intent, after)
    requires slot.PrepareRequest? ==> Labelled(content, Prepare)
    requires slot.StartRequest? ==> Labelled(content, Start) && Starts(View(s.files), content)
    ensures Inv(Create(s, h, slot, content, after))
    ensures View(Create(s, h, slot, content, after).files) == View(s.files)[slot := None]
  {
    var v := View(s.files);
    ViewUpdated(s.files, slot, File(None, false, false));
    assert v[slot := None][slot := Some(content)] == v[slot := Some(content)];
  }

  lemma WriteViews(s: State, h: Holder, slot: Slot, content: Content, progress: Progress, after: Pc)
    requires slot in s.files && s.files[slot].body == (if progress.Created? then None else Some(content))
    ensures View(WriteStep(s, h, slot, content, progress, after).files) == View(s.files)[slot := Some(content)]
    ensures !progress.Created? ==> View(s.files)[slot := Some(content)] == View(s.files)
  {
    ViewUpdated(s.files, slot, File(Some(content), false, false));
    ViewUpdated(s.files, slot, File(Some(content), true, false));
    assert View(EntriesSynced(s.files)) == View(s.files);
  }

  lemma WriteKeeps(s: State, h: Holder, slot: Slot, content: Content, progress: Progress, after: Pc)
    requires Inv(s) && Knows(View(s.files), h.intent, Writing(slot, content, progress, after))
    ensures Inv(WriteStep(s, h, slot, content, progress, after))
    ensures View(WriteStep(s, h, slot, content, progress, after).files) == View(s.files)[slot := Some(content)]
  {
    var v := View(s.files);
    assert slot in s.files && v[slot] == s.files[slot].body;
    hide View, EntriesSynced, Prepared, Selected, KnowsPost;
    WriteViews(s, h, slot, content, progress, after);
    assert v[slot := Some(content)][slot := Some(content)] == v[slot := Some(content)];
  }

  lemma RequestKeeps(s: State, h: Holder, stage: Stage, command: Option<Command>, choice: Choice)
    requires Inv(s) && s.holder == Some(h) && h.pc == NeedRequest(stage, command)
    ensures Inv(Step(s, h, choice))
  {
    var v := View(s.files);
    if RequestSlot(stage) !in v && command.Some? {
      var post := Post(Path(stage), stage, command.value);
      CreateKeeps(s, h, RequestSlot(stage), PostC(post), NeedReply(stage, post));
    }
  }

  lemma ReplyKeeps(s: State, h: Holder, choice: Choice)
    requires Inv(s) && s.holder == Some(h) && (h.pc.NeedReply? || h.pc.Sent? || h.pc.GotReply?)
    ensures Inv(Step(s, h, choice))
  {
    hide Starts;
    if h.pc.Sent? && choice.passes {
      CreateKeeps(s, h, ReplySlot(h.pc.stage), ReplyC(choice.reply), GotReply(h.pc.stage, choice.reply));
    }
  }

  lemma StepKeeps(s: State, h: Holder, choice: Choice)
    requires Inv(s) && s.holder == Some(h)
    ensures Inv(Step(s, h, choice))
  {
    var v := View(s.files);
    match h.pc {
      case SaveIntent =>
        if IntentFile !in v { CreateKeeps(s, h, IntentFile, IntentC(h.intent), NeedBasis); }
      case NeedBasis =>
        if BasisFile !in v && choice.selected.Some? {
          var b := Basis(choice.scope, choice.live, choice.selected.value);
          CreateKeeps(s, h.(seen := Some(Catalog(choice.scope, choice.live))), BasisFile, BasisC(b),
                      CheckLive(b, choice.live));
        }
      case CheckLive(_, _) =>
      case NeedRequest(stage, command) => RequestKeeps(s, h, stage, command, choice);
      case NeedReply(_, _) | Sent(_, _) | GotReply(_, _) => ReplyKeeps(s, h, choice);
      case Writing(slot, content, progress, after) => WriteKeeps(s, h, slot, content, progress, after);
    }
  }

  /** What can be read after a power loss. */
  lemma LossReads(s: State, e: Event, slot: Slot)
    requires e.PowerLoss?
    ensures slot in View(Next(s, e).files) <==> slot in s.files && !Drops(s, e, slot)
    ensures Stored(View(Next(s, e).files), slot) == if Ruins(s, e, slot) then None else Stored(View(s.files), slot)
  {}

  lemma EventKeeps(s: State, e: Event)
    requires Inv(s)
    ensures Inv(Next(s, e))
  {
    match e {
      case Advance(choice) => if s.holder.Some? { StepKeeps(s, s.holder.value, choice); }
      case PowerLoss(_, _) =>
        forall stage: Stage | Stored(View(Next(s, e).files), RequestSlot(stage)).Some?
          ensures Labelled(Stored(View(Next(s, e).files), RequestSlot(stage)).value, stage)
        {
          LossReads(s, e, RequestSlot(stage));
        }
      case _ =>
    }
  }

  /** Through crashes, torn files, retries, competing callers and any power loss. */
  lemma {:induction false} RunKeeps(s: State, es: seq<Event>)
    requires Inv(s)
    ensures Inv(Run(s, es))
    decreases |es|
  {
    if es != [] {
      RunKeeps(s, es[..|es| - 1]);
      EventKeeps(Run(s, es[..|es| - 1]), es[|es| - 1]);
    }
  }

  // --- files are written once ---

  /** No file disappears and what is written stays. */
  ghost predicate Grows(a: Bodies, b: Bodies) {
    forall slot | slot in a :: slot in b && (a[slot].Some? ==> b[slot] == a[slot])
  }

  predicate Writes(s: State, slot: Slot) {
    s.holder.Some? && s.holder.value.pc.Writing? && s.holder.value.pc.slot == slot
  }

  /** A step goes on writing, creates one absent file, or only reads; only the last kind sends, and then
      the stored request of a stage without a reply. */
  ghost predicate Effect(s: State, h: Holder, t: State) {
    var v, w := View(s.files), View(t.files);
    if h.pc.Writing? then
      && t.posts == s.posts && w == v[h.pc.slot := Some(h.pc.content)]
      && forall slot | slot != h.pc.slot :: !Writes(t, slot)
    else if t.holder.Some? && t.holder.value.pc.Writing? then
      t.posts == s.posts && t.holder.value.pc.slot !in v && w == v[t.holder.value.pc.slot := None]
    else
      && w == v
      && (|| t.posts == s.posts
          || (h.pc.NeedReply? && ReplySlot(h.pc.stage) !in v && t.posts == s.posts + [h.pc.post]))
  }

  lemma StepEffect(s: State, h: Holder, choice: Choice)
    requires Inv(s) && s.holder == Some(h)
    ensures Effect(s, h, Step(s, h, choice))
  {
    hide Prepared, Selected, Answered, NamesRun, Starts, Labelled, RequestsLabelled, KnowsPost;
    if h.pc.Writing? {
      WriteKeeps(s, h, h.pc.slot, h.pc.content, h.pc.progress, h.pc.after);
    } else if Step(s, h, choice).holder.Some? && Step(s, h, choice).holder.value.pc.Writing? {
      ViewUpdated(s.files, Step(s, h, choice).holder.value.pc.slot, File(None, false, false));
    }
  }

  lemma StepGrows(s: State, h: Holder, choice: Choice)
    requires Inv(s) && s.holder == Some(h)
    ensures Grows(View(s.files), View(Step(s, h, choice).files))
  {
    hide Prepared, Selected, Answered, NamesRun, Starts, RequestsLabelled, KnowsPost, Step;
    StepEffect(s, h, choice);
  }

  /** What was written can still be read after an event exactly when no unsynced part of it is lost. */
  lemma WrittenStaysIff(s: State, e: Event)
    requires Inv(s)
    ensures (forall slot | Stored(View(s.files), slot).Some? ::
               Stored(View(Next(s, e).files), slot) == Stored(View(s.files), slot)) <==>
            (forall slot | Stored(View(s.files), slot).Some? :: !Ruins(s, e, slot))
  {
    hide RequestsLabelled, Knows;
    match e {
      case Advance(choice) => if s.holder.Some? { StepGrows(s, s.holder.value, choice); }
      case PowerLoss(_, _) => forall slot { LossReads(s, e, slot); }
      case _ =>
    }
  }

  // --- one body per stage ---

  ghost predicate OneBody(posts: seq<Post>) {
    forall p, q | p in posts && q in posts && p.key == q.key :: p == q
  }

  /** The request of every POST sent is still on the disk, whole or torn for good. */
  ghost predicate SentKept(s: State) {
    forall p | p in s.posts :: Keeps(s, p)
  }

  ghost predicate Keeps(s: State, p: Post) {
    && RequestSlot(p.key) in View(s.files)
    && View(s.files)[RequestSlot(p.key)] in {None, Some(PostC(p))}
    && !Writes(s, RequestSlot(p.key))
  }

  /** A power loss takes the request of a POST that was sent. */
  predicate DropsSent(s: State, e: Event) {
    exists p | p in s.posts :: Drops(s, e, RequestSlot(p.key))
  }

  lemma StepKeepsSent(s: State, h: Holder, choice: Choice)
    requires Inv(s) && s.holder == Some(h) && SentKept(s) && OneBody(s.posts)
    ensures SentKept(Step(s, h, choice)) && OneBody(Step(s, h, choice).posts)
  {
    hide Prepared, Selected, Answered, NamesRun, Starts, RequestsLabelled, Step, View;
    StepEffect(s, h, choice);
    var t := Step(s, h, choice);
    forall p | p in s.posts ensures Keeps(t, p) {
      assert Keeps(s, p);
    }
  }

  /** The request of every POST sent stays on the disk exactly when no power loss drops one;
      while it does, no stage is sent with two bodies. */
  lemma SentKeptIff(s: State, e: Event)
    requires Inv(s) && SentKept(s) && OneBody(s.posts)
    ensures SentKept(Next(s, e)) <==> !DropsSent(s, e)
    ensures OneBody(Next(s, e).posts) || DropsSent(s, e)
  {
    hide Knows, RequestsLabelled, Step;
    if e.Advance? && s.holder.Some? {
      StepKeepsSent(s, s.holder.value, e.choice);
    }
  }

  ghost predicate NeverDropsSent(s: State, es: seq<Event>) {
    es != [] ==> NeverDropsSent(s, es[..|es| - 1]) && !DropsSent(Run(s, es[..|es| - 1]), es[|es| - 1])
  }

  /** Every POST of a stage is the same, path, key and command, unless a power loss drops the request
      of one that was sent; any other loss, torn requests included, breaks nothing. */
  lemma {:induction false} OneBodyPerStage(es: seq<Event>)
    requires NeverDropsSent(EMPTY, es)
    ensures var s := Run(EMPTY, es);
            && SentKept(s) && OneBody(s.posts)
            && forall p | p in s.posts :: p.path == if p.key.Prepare? then "/api/v1/runs" else "/api/v1/runs/start"
    decreases |es|
  {
    hide Inv, SentKept, Next;
    if es == [] {
      assert SentKept(EMPTY) && OneBody(EMPTY.posts) by { StartsKept(); }
    } else {
      OneBodyPerStage(es[..|es| - 1]);
      StartsKept();
      RunKeeps(EMPTY, es[..|es| - 1]);
      SentKeptIff(Run(EMPTY, es[..|es| - 1]), es[|es| - 1]);
    }
    Addressed(es);
  }

  lemma StartsKept()
    ensures Inv(EMPTY) && SentKept(EMPTY) && OneBody(EMPTY.posts)
  {}

  /** Whatever is lost, every POST goes to the path of its stage. */
  lemma Addressed(es: seq<Event>)
    ensures forall p | p in Run(EMPTY, es).posts ::
              p.path == if p.key.Prepare? then "/api/v1/runs" else "/api/v1/runs/start"
  {
    RunKeeps(EMPTY, es);
  }

  // --- the start request and the prepared run ---

  /** The stored start request names the run of the stored prepare reply. */
  ghost predicate StartFollows(v: Bodies) {
    Stored(v, StartRequest).Some? ==> Starts(v, Stored(v, StartRequest).value)
  }

  /** A power loss takes the prepare reply from under a start request that stays. */
  predicate Parts(s: State, e: Event) {
    Stored(View(s.files), StartRequest).Some? && !Ruins(s, e, StartRequest) && Ruins(s, e, PrepareReply)
  }

  lemma StepFollows(s: State, h: Holder, choice: Choice)
    requires Inv(s) && s.holder == Some(h) && StartFollows(View(s.files))
    ensures StartFollows(View(Step(s, h, choice).files))
  {
    hide Prepared, Selected, RequestsLabelled, KnowsPost, Step, View;
    StepEffect(s, h, choice);
  }

  /** An event keeps start and prepare together exactly when it does not take the prepare reply from
      under a start request that stays. */
  lemma StartFollowsIff(s: State, e: Event)
    requires Inv(s) && StartFollows(View(s.files))
    ensures StartFollows(View(Next(s, e).files)) <==> !Parts(s, e)
  {
    hide Knows, RequestsLabelled;
    match e {
      case Advance(choice) => if s.holder.Some? { StepFollows(s, s.holder.value, choice); }
      case PowerLoss(_, _) =>
        LossReads(s, e, StartRequest);
        LossReads(s, e, PrepareReply);
      case _ =>
    }
  }

  ghost predicate NeverParts(s: State, es: seq<Event>) {
    es != [] ==> NeverParts(s, es[..|es| - 1]) && !Parts(Run(s, es[..|es| - 1]), es[|es| - 1])
  }

  /** In every run that never parts them, the stored start request names the prepared run. */
  lemma {:induction false} StartFollowsPrepare(es: seq<Event>)
    requires NeverParts(EMPTY, es)
    ensures Inv(Run(EMPTY, es)) && StartFollows(View(Run(EMPTY, es).files))
    decreases |es|
  {
    hide Inv, Next, StartFollows, Parts;
    StartsKept();
    RunKeeps(EMPTY, es);
    if es == [] {
      assert StartFollows(View(EMPTY.files)) by { NothingFollows(); }
    } else {
      StartFollowsPrepare(es[..|es| - 1]);
      StartFollowsIff(Run(EMPTY, es[..|es| - 1]), es[|es| - 1]);
    }
  }

  lemma NothingFollows()
    ensures StartFollows(View(EMPTY.files))
  {}

  /** And every start POST, when it is sent, names the run of the prepare reply then stored. */
  lemma StartPostsFollow(es: seq<Event>, e: Event, p: Post)
    requires NeverParts(EMPTY, es) && p.key.Start?
    requires Next(Run(EMPTY, es), e).posts == Run(EMPTY, es).posts + [p]
    ensures var v := View(Run(EMPTY, es).files); p.command.StartRun? && NamesRun(v, p.command.run)
  {
    hide Prepared, Selected, RequestsLabelled, Step, View;
    StartFollowsPrepare(es);
    var s := Run(EMPTY, es);
    StepEffect(s, s.holder.value, e.choice);
    assert s.holder.value.pc.post == p by {
      assert Next(s, e).posts[|s.posts|] == p;
    }
  }

  // --- answered stages ---

  ghost function PostsOf(posts: seq<Post>, stage: Stage): seq<Post> {
    if posts == [] then []
    else PostsOf(posts[..|posts| - 1], stage) +
         (if posts[|posts| - 1].key == stage then [posts[|posts| - 1]] else [])
  }

  ghost predicate NeverDrops(s: State, es: seq<Event>, slot: Slot) {
    es != [] ==> NeverDrops(s, es[..|es| - 1], slot) && !Drops(Run(s, es[..|es| - 1]), es[|es| - 1], slot)
  }

  /** Once a reply file of a stage is there, whole or torn, the stage is not sent again until a power
      loss drops that very file. */
  lemma {:induction false} RepliedNeverPostsAgain(s: State, es: seq<Event>, stage: Stage)
    requires Inv(s) && ReplySlot(stage) in s.files && NeverDrops(s, es, ReplySlot(stage))
    ensures ReplySlot(stage) in Run(s, es).files && PostsOf(Run(s, es).posts, stage) == PostsOf(s.posts, stage)
    decreases |es|
  {
    hide Next, Drops;
    if es != [] {
      RepliedNeverPostsAgain(s, es[..|es| - 1], stage);
      RunKeeps(s, es[..|es| - 1]);
      ReplyStaysIff(Run(s, es[..|es| - 1]), es[|es| - 1], stage);
      RepliedStaysQuiet(Run(s, es[..|es| - 1]), es[|es| - 1], stage);
    }
  }

  lemma ReplyStaysIff(s: State, e: Event, stage: Stage)
    requires Inv(s) && ReplySlot(stage) in s.files
    ensures ReplySlot(stage) in Next(s, e).files <==> !Drops(s, e, ReplySlot(stage))
  {
    hide RequestsLabelled, Knows, Step;
    if e.Advance? && s.holder.Some? {
      StepGrows(s, s.holder.value, e.choice);
      assert ReplySlot(stage) in View(s.files) && ReplySlot(stage) in View(Next(s, e).files);
    }
  }

  lemma RepliedStaysQuiet(s: State, e: Event, stage: Stage)
    requires Inv(s) && ReplySlot(stage) in s.files
    ensures PostsOf(Next(s, e).posts, stage) == PostsOf(s.posts, stage)
  {
    hide RequestsLabelled, Prepared, Selected, Answered, Starts, Step;
    var t := Next(s, e);
    if t.posts != s.posts {
      StepEffect(s, s.holder.value, e.choice);
      assert ReplySlot(stage) in View(s.files);
      assert t.posts == s.posts + [s.holder.value.pc.post];
      assert t.posts[..|t.posts| - 1] == s.posts;
    }
  }

  // --- the installation a call was shown ---

  /** The call goes on only under the installation of the stored basis: its scope always, and its live part
      unless the start reply is already there. */
  ghost predicate Informed(v: Bodies, seen: Option<Catalog>, pc: Pc)
    decreases pc
  {
    match pc
    case SaveIntent | NeedBasis => true
    case CheckLive(b, live) => seen == Some(Catalog(b.scope, live)) && Stored(v, BasisFile) == Some(BasisC(b))
    case Writing(slot, content, _, after) => Informed(v[slot := Some(content)], seen, after)
    case _ => UnderBasis(v, seen)
  }

  ghost predicate UnderBasis(v: Bodies, seen: Option<Catalog>) {
    match (seen, Stored(v, BasisFile))
    case (Some(c), Some(BasisC(b))) => c.scope == b.scope && (StartReply in v || c.live == b.live)
    case _ => false
  }

  ghost predicate InformedHolder(s: State) {
    s.holder.Some? ==> Informed(View(s.files), s.holder.value.seen, s.holder.value.pc)
  }

  lemma UnderBasisStays(v: Bodies, seen: Option<Catalog>, slot: Slot, body: Option<Content>)
    requires UnderBasis(v, seen) && slot != BasisFile
    ensures UnderBasis(v[slot := body], seen)
  {}

  lemma CreateInforms(s: State, h: Holder, slot: Slot, content: Content, after: Pc)
    requires slot !in s.files && Informed(View(s.files)[slot := Some(content)], h.seen, after)
    ensures InformedHolder(Create(s, h, slot, content, after))
  {
    var v := View(s.files);
    ViewUpdated(s.files, slot, File(None, false, false));
    assert v[slot := None][slot := Some(content)] == v[slot := Some(content)];
  }

  lemma StepInforms(s: State, h: Holder, choice: Choice)
    requires Inv(s) && s.holder == Some(h) && InformedHolder(s)
    ensures InformedHolder(Step(s, h, choice))
  {
    hide Prepared, Answered, NamesRun, Starts, RequestsLabelled, KnowsPost;
    var v := View(s.files);
    match h.pc {
      case SaveIntent =>
        if IntentFile !in v { CreateInforms(s, h, IntentFile, IntentC(h.intent), NeedBasis); }
      case NeedBasis =>
        if BasisFile !in v && choice.selected.Some? {
          var b := Basis(choice.scope, choice.live, choice.selected.value);
          CreateInforms(s, h.(seen := Some(Catalog(choice.scope, choice.live))), BasisFile, BasisC(b),
                        CheckLive(b, choice.live));
        }
      case CheckLive(_, _) =>
      case NeedRequest(stage, command) =>
        if RequestSlot(stage) !in v && command.Some? {
          var post := Post(Path(stage), stage, command.value);
          UnderBasisStays(v, h.seen, RequestSlot(stage), Some(PostC(post)));
          CreateInforms(s, h, RequestSlot(stage), PostC(post), NeedReply(stage, post));
        }
      case NeedReply(_, _) =>
      case Sent(stage, _) =>
        if choice.passes {
          UnderBasisStays(v, h.seen, ReplySlot(stage), Some(ReplyC(choice.reply)));
          CreateInforms(s, h, ReplySlot(stage), ReplyC(choice.reply), GotReply(stage, choice.reply));
        }
      case GotReply(_, _) =>
      case Writing(slot, content, progress, after) => WriteInforms(s, h, slot, content, progress, after);
    }
  }

  lemma WriteInforms(s: State, h: Holder, slot: Slot, content: Content, progress: Progress, after: Pc)
    requires Inv(s) && s.holder == Some(h) && h.pc == Writing(slot, content, progress, after) && InformedHolder(s)
    ensures InformedHolder(WriteStep(s, h, slot, content, progress, after))
  {
    hide Prepared, Answered, NamesRun, Starts, RequestsLabelled, KnowsPost, View;
    WriteKeeps(s, h, slot, content, progress, after);
    var v := View(s.files);
    assert v[slot := Some(content)][slot := Some(content)] == v[slot := Some(content)];
  }

  lemma {:induction false} RunInforms(es: seq<Event>)
    ensures Inv(Run(EMPTY, es)) && InformedHolder(Run(EMPTY, es))
    decreases |es|
  {
    StartsKept();
    RunKeeps(EMPTY, es);
    if es != [] {
      RunInforms(es[..|es| - 1]);
      InformsThrough(Run(EMPTY, es[..|es| - 1]), es[|es| - 1]);
    }
  }

  lemma InformsThrough(s: State, e: Event)
    requires Inv(s) && InformedHolder(s)
    ensures InformedHolder(Next(s, e))
  {
    hide Step, Knows, RequestsLabelled;
    if e.Advance? && s.holder.Some? {
      StepInforms(s, s.holder.value, e.choice);
    }
  }

  /** In every run every POST leaves a call that was shown the scope of the stored basis, and its live part too
      unless the start reply is already there. */
  lemma PostsUnderBasis(es: seq<Event>, e: Event, p: Post)
    requires Next(Run(EMPTY, es), e).posts == Run(EMPTY, es).posts + [p]
    ensures var s := Run(EMPTY, es);
            && s.holder.Some? && s.holder.value.seen.Some?
            && Stored(View(s.files), BasisFile).Some? && Stored(View(s.files), BasisFile).value.BasisC?
            && var c, b := s.holder.value.seen.value, Stored(View(s.files), BasisFile).value.basis;
            && c.scope == b.scope && (StartReply in s.files || c.live == b.live)
  {
    hide Prepared, Selected, Answered, NamesRun, Starts, RequestsLabelled, Step, View;
    RunInforms(es);
    var s := Run(EMPTY, es);
    StepEffect(s, s.holder.value, e.choice);
    assert StartReply in View(s.files) <==> StartReply in s.files by { SameSlots(s.files, StartReply); }
  }

  lemma SameSlots(files: Files, slot: Slot)
    ensures slot in View(files) <==> slot in files
  {}

  /** What a call was shown is what the catalog said when it asked, and it asks once. */
  lemma SeenIsTheCatalog(s: State, h: Holder, choice: Choice)
    requires s.holder == Some(h) && Step(s, h, choice).holder.Some?
    ensures Step(s, h, choice).holder.value.intent == h.intent
    ensures Step(s, h, choice).holder.value.seen ==
            if h.pc.NeedBasis? then Some(Catalog(choice.scope, choice.live)) else h.seen
  {}
}

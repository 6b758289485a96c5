/** The seccomp filter of the descriptor guardian and the dispatch of what it reports
    (native/dhi/guardian.c:114-147, 186-211, 381-429, 494-541). */
module Seccomp {
  import opened Options

  // --- classic BPF, the part the filter uses ---

  datatype Action = KillProcess | UserNotify | Errno(code: nat) | Allow

  datatype Instr =
    | LoadWord(offset: nat)
    | JumpEq(k: nat, jt: nat, jf: nat)
    | Ret(action: Action)

  const U32 := 0x1_0000_0000

  /** struct seccomp_data: nr, arch, instruction pointer and six 64-bit arguments, little endian. */
  datatype Data = Data(nr: nat, arch: nat, args: nat -> nat)

  /** The aligned 32-bit word at a byte offset. */
  function Word(d: Data, offset: nat): nat {
    if offset == 0 then d.nr
    else if offset == 4 then d.arch
    else if offset < 16 then 0
    else if offset % 8 == 0 then d.args((offset - 16) / 8) % U32
    else d.args((offset - 16) / 8) / U32 % U32
  }

  datatype Outcome = Returned(action: Action) | OutOfBounds

  function Exec(code: seq<Instr>, pc: nat, acc: nat, d: Data): Outcome
    decreases if pc <= |code| then |code| - pc else 0
  {
    if pc >= |code| then OutOfBounds
    else match code[pc]
      case LoadWord(offset) => Exec(code, pc + 1, Word(d, offset), d)
      case JumpEq(k, jt, jf) => Exec(code, pc + 1 + (if acc == k then jt else jf), acc, d)
      case Ret(action) => Returned(action)
  }

  // --- the filter ---

  const EPERM := 1
  const ARG1 := 24

  /** Two instructions per notified number between a fixed head and a fixed tail. */
  function Filter(arch: nat, notified: seq<nat>, ioctl: nat, exclusiveOff: nat): seq<Instr> {
    [LoadWord(4), JumpEq(arch, 1, 0), Ret(KillProcess), LoadWord(0)]
    + seq(2 * |notified|, k requires 0 <= k < 2 * |notified| =>
        if k % 2 == 0 then JumpEq(notified[k / 2], 0, 1) else Ret(UserNotify))
    + [JumpEq(ioctl, 0, 3), LoadWord(ARG1), JumpEq(exclusiveOff, 0, 1), Ret(Errno(EPERM)), Ret(Allow)]
  }

  /** What the filter is for. */
  function Policy(arch: nat, notified: seq<nat>, ioctl: nat, exclusiveOff: nat, d: Data): Action {
    if d.arch != arch then KillProcess
    else if d.nr in notified then UserNotify
    else if d.nr == ioctl && d.args(1) % U32 == exclusiveOff then Errno(EPERM)
    else Allow
  }

  /** From the i-th test on, with the number loaded. */
  lemma {:induction false} TestsFrom(arch: nat, notified: seq<nat>, ioctl: nat, exclusiveOff: nat, d: Data, i: nat)
    requires d.arch == arch && i <= |notified|
    requires d.nr !in notified[..i]
    ensures Exec(Filter(arch, notified, ioctl, exclusiveOff), 4 + 2 * i, d.nr, d)
            == Returned(Policy(arch, notified, ioctl, exclusiveOff, d))
    decreases |notified| - i
  {
    var code, n := Filter(arch, notified, ioctl, exclusiveOff), 4 + 2 * i;
    if i < |notified| {
      assert code[n] == JumpEq(notified[i], 0, 1);
      assert code[n + 1] == Ret(UserNotify);
      if d.nr != notified[i] {
        assert notified[..i + 1] == notified[..i] + [notified[i]];
        TestsFrom(arch, notified, ioctl, exclusiveOff, d, i + 1);
      }
    } else {
      assert notified[..i] == notified;
      assert code[n] == JumpEq(ioctl, 0, 3) && code[n + 1] == LoadWord(ARG1);
      assert code[n + 2] == JumpEq(exclusiveOff, 0, 1) && code[n + 3] == Ret(Errno(EPERM)) && code[n + 4] == Ret(Allow);
      assert Word(d, ARG1) == d.args(1) % U32;
      TailRuns(code, n, ioctl, exclusiveOff, d);
    }
  }

  lemma TailRuns(code: seq<Instr>, n: nat, ioctl: nat, exclusiveOff: nat, d: Data)
    requires n + 5 == |code|
    requires code[n..] ==
             [JumpEq(ioctl, 0, 3), LoadWord(ARG1), JumpEq(exclusiveOff, 0, 1), Ret(Errno(EPERM)), Ret(Allow)]
    ensures Exec(code, n, d.nr, d) ==
            Returned(if d.nr == ioctl && d.args(1) % U32 == exclusiveOff then Errno(EPERM) else Allow)
  {
    assert forall k | 0 <= k < 5 :: code[n + k] == code[n..][k];
    assert code[n + 3] == Ret(Errno(EPERM)) && code[n + 4] == Ret(Allow);
    var w := Word(d, ARG1);
    assert Exec(code, n + 4, w, d) == Returned(Allow) && Exec(code, n + 4, d.nr, d) == Returned(Allow);
    assert Exec(code, n + 3, w, d) == Returned(Errno(EPERM));
    assert Exec(code, n + 2, w, d) == if w == exclusiveOff then Exec(code, n + 3, w, d) else Exec(code, n + 4, w, d);
  }

  /** For every list of notified syscalls the filter stays in bounds and decides by the policy. */
  lemma {:induction false} FilterMeetsPolicy(arch: nat, notified: seq<nat>, ioctl: nat, exclusiveOff: nat, d: Data)
    ensures Exec(Filter(arch, notified, ioctl, exclusiveOff), 0, 0, d)
            == Returned(Policy(arch, notified, ioctl, exclusiveOff, d))
  {
    var code := Filter(arch, notified, ioctl, exclusiveOff);
    assert code[0] == LoadWord(4) && code[1] == JumpEq(arch, 1, 0);
    assert code[2] == Ret(KillProcess) && code[3] == LoadWord(0);
    assert Exec(code, 2, d.arch, d) == Returned(KillProcess);
    assert Exec(code, 3, d.arch, d) == Exec(code, 4, d.nr, d);
    if d.arch == arch {
      TestsFrom(arch, notified, ioctl, exclusiveOff, d, 0);
    }
  }

  // --- the notified syscalls and their handlers ---

  /** Syscall numbers of a platform; a name the platform lacks is None. */
  datatype Table = Table(
    openat: nat, open: Option<nat>, openat2: Option<nat>,
    clone: Option<nat>, clone3: Option<nat>, fork: Option<nat>, vfork: Option<nat>,
    openByHandle: Option<nat>, ioUring: Option<nat>, pidfdGetfd: Option<nat>)

  function Opt(n: Option<nat>): seq<nat> {
    if n.Some? then [n.value] else []
  }

  /** In the order of the filter. */
  function Notified(t: Table): seq<nat> {
    [t.openat] + Opt(t.open) + Opt(t.openat2) + Opt(t.clone) + Opt(t.clone3) + Opt(t.fork) + Opt(t.vfork)
    + Opt(t.openByHandle) + Opt(t.ioUring) + Opt(t.pidfdGetfd)
  }

  datatype Handler = RefuseArch | RefuseByHandle | RefuseIoUring | RefusePidfd | CloneFamily | OpenFamily

  function Dispatch(t: Table, arch: nat, d: Data): Handler {
    if d.arch != arch then RefuseArch
    else if Some(d.nr) == t.openByHandle then RefuseByHandle
    else if Some(d.nr) == t.ioUring then RefuseIoUring
    else if Some(d.nr) == t.pidfdGetfd then RefusePidfd
    else if Some(d.nr) in {t.clone, t.clone3, t.fork, t.vfork} then CloneFamily
    else OpenFamily
  }

  datatype Decoded = Decoded(dirfd: int, path: nat, flags: nat) | Undecodable(reason: string)

  const AT_FDCWD := -100
  const OPEN_HOW_SIZE := 24

  /** The low 32 bits as a signed int. */
  function AsInt(x: nat): int {
    var w := x % U32;
    if w < U32 / 2 then w else w - U32
  }

  /** What reading open_how from the caller yields: its flags and resolve fields. */
  datatype How = How(flags: nat, resolve: nat)

  function DecodeOpen(t: Table, d: Data, remote: Option<How>): Decoded {
    if Some(d.nr) == t.open then Decoded(AT_FDCWD, d.args(0), d.args(1))
    else if d.nr == t.openat then Decoded(AsInt(d.args(0)), d.args(1), d.args(2))
    else if Some(d.nr) == t.openat2 then
      if d.args(3) < OPEN_HOW_SIZE || remote.None? then Undecodable("DHI_OPENAT2_LAYOUT_UNSUPPORTED")
      else if remote.value.resolve != 0 then Undecodable("DHI_OPENAT2_RESOLVE_UNSUPPORTED")
      else Decoded(AsInt(d.args(0)), d.args(1), remote.value.flags)
    else Undecodable("DHI_OPEN_SYSCALL_UNSUPPORTED")
  }

  const CLONE_THREAD := 0x10000

  predicate ThreadFlag(flags: nat) {
    flags / CLONE_THREAD % 2 == 1
  }

  datatype Disposition = AllowThread | Forbid(reason: string)

  function CloneDisposition(t: Table, d: Data, remoteFlags: Option<nat>): Disposition {
    if Some(d.nr) == t.clone then
      if ThreadFlag(d.args(0)) then AllowThread else Forbid("DHI_PROCESS_FORK_UNSUPPORTED")
    else if Some(d.nr) == t.clone3 then
      if d.args(1) < 8 || remoteFlags.None? then Forbid("DHI_CLONE3_LAYOUT_UNSUPPORTED")
      else if ThreadFlag(remoteFlags.value) then AllowThread else Forbid("DHI_PROCESS_FORK_UNSUPPORTED")
    else Forbid("DHI_PROCESS_FORK_UNSUPPORTED")
  }

  lemma NotifiedMembers(t: Table, nr: nat)
    ensures nr in Notified(t) <==>
            nr == t.openat || Some(nr) in {t.open, t.openat2, t.clone, t.clone3, t.fork, t.vfork,
                                           t.openByHandle, t.ioUring, t.pidfdGetfd}
  {
    var a := [t.openat] + Opt(t.open) + Opt(t.openat2);
    var b := a + Opt(t.clone) + Opt(t.clone3) + Opt(t.fork) + Opt(t.vfork);
    assert Notified(t) == b + Opt(t.openByHandle) + Opt(t.ioUring) + Opt(t.pidfdGetfd);
    assert nr in a <==> nr == t.openat || Some(nr) in {t.open, t.openat2};
    assert nr in b <==> nr in a || Some(nr) in {t.clone, t.clone3, t.fork, t.vfork};
  }

  /** The filter reports a call exactly when some handler is meant for it: a reported open is always
      recognised by the decoder, a reported clone allowed only as a thread, and a number
      the filter lets through would be recognised by none of them. */
  lemma {:induction false} ReportedIsRecognised(t: Table, arch: nat, ioctl: nat, exclusiveOff: nat, d: Data,
                                                how: Option<How>, flags: Option<nat>)
    requires d.arch == arch
    ensures Exec(Filter(arch, Notified(t), ioctl, exclusiveOff), 0, 0, d) == Returned(UserNotify) <==>
            !Dispatch(t, arch, d).OpenFamily? || DecodeOpen(t, d, how) != Undecodable("DHI_OPEN_SYSCALL_UNSUPPORTED")
    ensures CloneDisposition(t, d, flags).AllowThread? ==>
              Some(d.nr) in {t.clone, t.clone3} &&
              Exec(Filter(arch, Notified(t), ioctl, exclusiveOff), 0, 0, d) == Returned(UserNotify)
  {
    FilterMeetsPolicy(arch, Notified(t), ioctl, exclusiveOff, d);
    NotifiedMembers(t, d.nr);
    Messages();
  }

  /** Each number goes to its own handler. */
  lemma DispatchByNumber(t: Table, arch: nat, d: Data)
    requires t.openByHandle.None? || t.openByHandle !in {t.ioUring, t.pidfdGetfd, t.clone, t.clone3, t.fork, t.vfork}
    requires t.ioUring.None? || t.ioUring !in {t.pidfdGetfd, t.clone, t.clone3, t.fork, t.vfork}
    requires t.pidfdGetfd.None? || t.pidfdGetfd !in {t.clone, t.clone3, t.fork, t.vfork}
    ensures Dispatch(t, arch, d) == RefuseArch <==> d.arch != arch
    ensures d.arch == arch ==>
              && (Dispatch(t, arch, d) == RefuseByHandle <==> t.openByHandle == Some(d.nr))
              && (Dispatch(t, arch, d) == RefuseIoUring <==> t.ioUring == Some(d.nr))
              && (Dispatch(t, arch, d) == RefusePidfd <==> t.pidfdGetfd == Some(d.nr))
              && (Dispatch(t, arch, d) == CloneFamily <==>
                    t.clone == Some(d.nr) || t.clone3 == Some(d.nr) || t.fork == Some(d.nr) || t.vfork == Some(d.nr))
  {}

  /** The conversion to int keeps the low 32 bits. */
  lemma AsIntWraps(x: nat)
    ensures -0x8000_0000 <= AsInt(x) < 0x8000_0000 && (x - AsInt(x)) % 0x1_0000_0000 == 0
  {}

  /** A thread is let through exactly for clone with bit 16 set in its first argument, or clone3 with a structure of at
      least eight bytes that could be read and has that bit set in its flags. */
  lemma ThreadAllowedIff(t: Table, d: Data, remoteFlags: Option<nat>)
    requires t.clone.None? || t.clone != t.clone3
    ensures CloneDisposition(t, d, remoteFlags) == AllowThread <==>
            || (t.clone == Some(d.nr) && d.args(0) % 0x20000 >= 0x10000)
            || (t.clone3 == Some(d.nr) && d.args(1) >= 8 && remoteFlags.Some? && remoteFlags.value % 0x20000 >= 0x10000)
  {
    BitSixteen(d.args(0));
    if remoteFlags.Some? {
      BitSixteen(remoteFlags.value);
    }
  }

  lemma BitSixteen(flags: nat)
    ensures ThreadFlag(flags) <==> flags % 0x20000 >= 0x10000
  {}

  /** Where each call keeps directory, path and flags; openat2 only with a readable structure of the right size
      and no resolve flags. */
  lemma OpenDecodesAs(t: Table, d: Data, remote: Option<How>)
    requires t.open != Some(t.openat) && t.openat2 != Some(t.openat) && (t.open.None? || t.open != t.openat2)
    ensures t.open == Some(d.nr) ==> DecodeOpen(t, d, remote) == Decoded(-100, d.args(0), d.args(1))
    ensures t.openat == d.nr ==>
              && DecodeOpen(t, d, remote).Decoded? && DecodeOpen(t, d, remote).dirfd == AsInt(d.args(0))
              && DecodeOpen(t, d, remote).path == d.args(1) && DecodeOpen(t, d, remote).flags == d.args(2)
    ensures t.openat2 == Some(d.nr) ==>
              (DecodeOpen(t, d, remote).Decoded? <==> d.args(3) >= 24 && remote.Some? && remote.value.resolve == 0)
    ensures t.openat2 == Some(d.nr) && DecodeOpen(t, d, remote).Decoded? ==>
              DecodeOpen(t, d, remote) == Decoded(AsInt(d.args(0)), d.args(1), remote.value.flags)
  {}

  /** The refusal texts are told apart. */
  lemma Messages()
    ensures "DHI_OPENAT2_LAYOUT_UNSUPPORTED" != "DHI_OPEN_SYSCALL_UNSUPPORTED"
    ensures "DHI_OPENAT2_RESOLVE_UNSUPPORTED" != "DHI_OPEN_SYSCALL_UNSUPPORTED"
  {
    assert "DHI_OPENAT2_LAYOUT_UNSUPPORTED"[8] != "DHI_OPEN_SYSCALL_UNSUPPORTED"[8];
    assert "DHI_OPENAT2_RESOLVE_UNSUPPORTED"[8] != "DHI_OPEN_SYSCALL_UNSUPPORTED"[8];
  }
}

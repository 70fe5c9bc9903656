// The process-control blocks of the kernel and the per-slot fill that
// kernel_main performs at boot (kernel/main.c, the loop over proc_table).

module Process {

  /** Header constants the boot loop reads. Their numeric values live in
      headers that are not part of this model, so they are parameters here;
      ConfigOk states the few structural facts the proofs rely on. */
  datatype Config = Config(
    nrTasks: nat,            // NR_TASKS
    nrProcs: nat,            // NR_PROCS
    nrNativeProcs: nat,      // NR_NATIVE_PROCS
    nrFiles: nat,            // NR_FILES
    freeSlot: int,           // FREE_SLOT
    noTask: int,             // NO_TASK
    privilegeTask: bv32,     // PRIVILEGE_TASK
    privilegeUser: bv32,     // PRIVILEGE_USER
    rplTask: bv32,           // RPL_TASK
    rplUser: bv32,           // RPL_USER
    daC: bv32,               // DA_C: executable code segment type
    daDrw: bv32,             // DA_DRW: read/write data segment type
    da32: bv32,              // DA_32
    daLimit4k: bv32,         // DA_LIMIT_4K
    saTil: bv32,             // SA_TIL: "use the LDT" selector bit
    saRplMask: bv32,         // SA_RPL_MASK
    indexLdtC: bv32,         // INDEX_LDT_C
    indexLdtRw: bv32,        // INDEX_LDT_RW
    selectorKernelGs: bv32,  // SELECTOR_KERNEL_GS
    stackSizeTotal: nat      // STACK_SIZE_TOTAL
  )

  /** What the x86 encodings used by the boot loop need of the constants:
      privilege and RPL values are rings 0..3, the segment type constants
      leave the DPL bits (5 and 6) clear, SA_TIL is bit 2 alone, SA_RPL_MASK
      is the 16-bit mask 0xFFFC that clears the RPL bits, SELECTOR_KERNEL_GS
      is a 16-bit selector and the LDT indices survive a shift by three. */
  predicate ConfigOk(cfg: Config) {
    && cfg.nrNativeProcs <= cfg.nrProcs
    && cfg.privilegeTask <= 3 && cfg.privilegeUser <= 3
    && cfg.rplTask <= 3 && cfg.rplUser <= 3
    && cfg.daC & 0x60 == 0 && cfg.daDrw & 0x60 == 0
    && cfg.saTil & !4 == 0
    && cfg.saRplMask == 0xFFFC && cfg.selectorKernelGs < 0x1_0000
    && cfg.indexLdtC < 0x2000_0000 && cfg.indexLdtRw < 0x2000_0000
  }

  /** A segment descriptor: base, limit, access byte (attr1: type, DPL,
      present) and flag byte (attr2: granularity, operand size). */
  datatype Descriptor = Descriptor(base: bv32, limit: bv32, attr1: bv32, attr2: bv32)

  /** The descriptor privilege level held in bits 5..6 of the access byte. */
  function Dpl(d: Descriptor): bv32 {
    (d.attr1 >> 5) & 3
  }

  /** init_desc: a descriptor built from a base, a limit and an attribute
      word whose low byte is the access byte and whose high byte holds the flags. */
  function InitDesc(base: bv32, limit: bv32, attribute: bv32): (d: Descriptor)
    ensures d.base == base && d.limit == limit
    ensures d.attr1 == attribute & 0xFF && d.attr2 == (attribute >> 8) & 0xFF
    ensures d.attr1 < 0x100 && d.attr2 < 0x100
    ensures attribute < 0x1_0000 ==> (d.attr2 << 8) | d.attr1 == attribute
  {
    Descriptor(base, limit, attribute & 0xFF, (attribute >> 8) & 0xFF)
  }

  /** Saved registers of a process (struct stackframe, the fields kernel_main sets). */
  datatype Regs = Regs(cs: bv32, ds: bv32, es: bv32, fs: bv32, ss: bv32, gs: bv32,
                       eip: int, esp: int, eflags: int)

  /** One entry of proc_table. Pointers (p_msg, q_sending, next_sending)
      are addresses, 0 being NULL. */
  datatype Pcb = Pcb(
    name: string,
    parent: int,
    flags: int,
    ldtCode: Descriptor,
    ldtData: Descriptor,
    regs: Regs,
    ticks: int,
    priority: int,
    msg: int,
    recvFrom: int,
    sendTo: int,
    hasIntMsg: int,
    qSending: int,
    nextSending: int,
    filp: seq<int>,
    runnable: bool
  )

  const ZeroDescriptor := Descriptor(0, 0, 0, 0)
  const ZeroRegs := Regs(0, 0, 0, 0, 0, 0, 0, 0, 0)

  /** A file table with every entry closed. */
  function NoFiles(n: nat): (f: seq<int>)
    ensures |f| == n && forall i :: 0 <= i < n ==> f[i] == 0
  {
    seq(n, _ => 0)
  }

  /** A slot of the statically allocated, hence zero-filled, proc_table. */
  function ZeroPcb(nrFiles: nat): (p: Pcb)
    ensures !p.runnable && p.ticks == 0 && p.priority == 0 && p.filp == NoFiles(nrFiles)
  {
    Pcb("", 0, 0, ZeroDescriptor, ZeroDescriptor, ZeroRegs, 0, 0, 0, 0, 0, 0, 0, 0,
        NoFiles(nrFiles), false)
  }

  /** An entry of task_table or user_proc_table. */
  datatype Template = Template(name: string, initialEip: int, stacksize: int)

  /** What kernel_main takes from outside the loop: the kernel code and
      data descriptors of the GDT, the kernel image extent that
      get_kernel_map reported (a call assumed to have succeeded), and the
      top of the stack arena task_stack + STACK_SIZE_TOTAL. */
  datatype BootEnv = BootEnv(gdtCode: Descriptor, gdtData: Descriptor,
                             kBase: bv32, kLimit: bv32, stackTop: int)

  /** The two template tables, as many entries as the boot loop reads. */
  predicate TablesOk(cfg: Config, tasks: seq<Template>, users: seq<Template>) {
    |tasks| >= cfg.nrTasks && |users| >= cfg.nrNativeProcs
  }

  /** Slots below NR_TASKS + NR_NATIVE_PROCS are filled from a template. */
  predicate Populated(cfg: Config, k: int) {
    0 <= k < cfg.nrTasks + cfg.nrNativeProcs
  }

  function TemplateAt(cfg: Config, tasks: seq<Template>, users: seq<Template>, k: nat): Template
    requires TablesOk(cfg, tasks, users) && Populated(cfg, k)
  {
    if k < cfg.nrTasks then tasks[k] else users[k - cfg.nrTasks]
  }

  /** The sum of the stack sizes of the populated slots below k: how far
      the arena pointer stk has come down when the loop reaches slot k. */
  function StackUsed(cfg: Config, tasks: seq<Template>, users: seq<Template>, k: nat): (r: int)
    requires TablesOk(cfg, tasks, users)
  {
    if k == 0 then 0
    else if Populated(cfg, k - 1) then
      StackUsed(cfg, tasks, users, k - 1) + TemplateAt(cfg, tasks, users, k - 1).stacksize
    else StackUsed(cfg, tasks, users, k - 1)
  }

  /** The configuration cannot overrun the arena: no negative stack size
      and a total no larger than STACK_SIZE_TOTAL. The source does not
      check this; the boot loop assumes it. */
  predicate StacksFit(cfg: Config, tasks: seq<Template>, users: seq<Template>)
    requires TablesOk(cfg, tasks, users)
  {
    && (forall k :: 0 <= k < cfg.nrTasks + cfg.nrNativeProcs ==> TemplateAt(cfg, tasks, users, k).stacksize >= 0)
    && StackUsed(cfg, tasks, users, cfg.nrTasks + cfg.nrNativeProcs) <= cfg.stackSizeTotal
  }

  /** The requested privilege level packed into a selector (bits 0..1). */
  function SelectorRpl(sel: bv32): bv32 { sel & 3 }
  /** The table-indicator bit of a selector (bit 2). */
  function SelectorTi(sel: bv32): bv32 { sel & 4 }
  /** The descriptor index of a selector (bits 3 and up). */
  function SelectorIndex(sel: bv32): bv32 { sel >> 3 }

  /** INDEX << 3 | SA_TIL | rpl. */
  function Selector(cfg: Config, index: bv32, rpl: bv32): (sel: bv32)
    requires ConfigOk(cfg) && index < 0x2000_0000 && rpl <= 3
    ensures SelectorIndex(sel) == index
    ensures SelectorTi(sel) == cfg.saTil
    ensures SelectorRpl(sel) == rpl
  {
    ((index << 3) | cfg.saTil) | rpl
  }

  /** A kernel descriptor copied from the GDT with a new access byte
      `type | priv << 5`, as kernel_main does for every process but INIT. */
  function Retag(gdt: Descriptor, segType: bv32, priv: bv32): (d: Descriptor)
    requires segType & 0x60 == 0 && priv <= 3
    ensures d.base == gdt.base && d.limit == gdt.limit && d.attr2 == gdt.attr2
    ensures Dpl(d) == priv
    ensures d.attr1 & 0x9F == segType & 0x9F
  {
    gdt.(attr1 := (segType | (priv << 5)) & 0xFF)
  }

  /** INIT's descriptors: base 0, limit the end of the kernel image in
      4K units (LIMIT_4K_SHIFT is 12), 32-bit, page granular, tagged with the target privilege. */
  function InitImageDesc(cfg: Config, env: BootEnv, segType: bv32, priv: bv32): (d: Descriptor)
    requires ConfigOk(cfg) && segType & 0x60 == 0 && priv <= 3
    requires (cfg.da32 | cfg.daLimit4k) & 0xFF == 0
    ensures d.base == 0
    ensures d.limit == (env.kBase + env.kLimit) >> 12
    ensures Dpl(d) == priv
    ensures d.attr2 == ((((cfg.da32 | cfg.daLimit4k) | segType) | (priv << 5)) >> 8) & 0xFF
  {
    InitDesc(0, (env.kBase + env.kLimit) >> 12,
             ((cfg.da32 | cfg.daLimit4k) | segType) | (priv << 5))
  }

  /** An LDT descriptor of a process: the GDT's kernel descriptor
      retagged with the process privilege, or, for INIT (the process whose
      name compares equal to "INIT"), one spanning the kernel image from
      address 0. */
  function LdtDescriptor(cfg: Config, env: BootEnv, isInit: bool, gdt: Descriptor,
                         segType: bv32, priv: bv32): (d: Descriptor)
    requires ConfigOk(cfg) && segType & 0x60 == 0 && priv <= 3
    requires isInit ==> (cfg.da32 | cfg.daLimit4k) & 0xFF == 0
    ensures Dpl(d) == priv
    ensures !isInit ==> d.base == gdt.base && d.limit == gdt.limit
    ensures isInit ==> d.base == 0
  {
    if !isInit then Retag(gdt, segType, priv) else InitImageDesc(cfg, env, segType, priv)
  }

  /** The initial register frame: cs selects the LDT code descriptor,
      ds/es/fs/ss the LDT data descriptor, all with the process RPL; gs
      keeps the kernel's video selector and takes the process RPL. */
  function InitialRegs(cfg: Config, rpl: bv32, eip: int, esp: int, eflags: int): (r: Regs)
    requires ConfigOk(cfg) && rpl <= 3
    ensures SelectorRpl(r.cs) == rpl && SelectorIndex(r.cs) == cfg.indexLdtC && SelectorTi(r.cs) == cfg.saTil
    ensures SelectorRpl(r.ds) == rpl && SelectorIndex(r.ds) == cfg.indexLdtRw && SelectorTi(r.ds) == cfg.saTil
    ensures r.es == r.ds && r.fs == r.ds && r.ss == r.ds
    ensures SelectorRpl(r.gs) == rpl
    ensures SelectorIndex(r.gs) == SelectorIndex(cfg.selectorKernelGs)
    ensures SelectorTi(r.gs) == SelectorTi(cfg.selectorKernelGs)
    ensures r.eip == eip && r.esp == esp && r.eflags == eflags
  {
    var sel := Selector(cfg, cfg.indexLdtRw, rpl);
    Regs(Selector(cfg, cfg.indexLdtC, rpl), sel, sel, sel, sel, KernelGs(cfg, rpl), eip, esp, eflags)
  }

  /** gs: SELECTOR_KERNEL_GS with its RPL bits masked off by SA_RPL_MASK
      and replaced by rpl, which keeps its index and table indicator. */
  function KernelGs(cfg: Config, rpl: bv32): (gs: bv32)
    requires ConfigOk(cfg) && rpl <= 3
    ensures SelectorRpl(gs) == rpl
    ensures SelectorIndex(gs) == SelectorIndex(cfg.selectorKernelGs)
    ensures SelectorTi(gs) == SelectorTi(cfg.selectorKernelGs)
  {
    (cfg.selectorKernelGs & cfg.saRplMask) | rpl
  }

  /** The values kernel_main writes into a populated slot, given the
      template t, whether the slot is a kernel task, the current arena
      pointer esp and the slot's previous contents (p_runable is never
      written at boot). */
  function Populate(cfg: Config, env: BootEnv, t: Template, isTask: bool, esp: int, prev: Pcb): (r: Pcb)
    requires ConfigOk(cfg)
    requires t.name == "INIT" ==> (cfg.da32 | cfg.daLimit4k) & 0xFF == 0
  {
    var priv := if isTask then cfg.privilegeTask else cfg.privilegeUser;
    var rpl := if isTask then cfg.rplTask else cfg.rplUser;
    var eflags := if isTask then 0x1202 else 0x202;
    var prio := if isTask then 15 else 5;
    var isInit := t.name == "INIT";
    Pcb(t.name, cfg.noTask, 0,
        LdtDescriptor(cfg, env, isInit, env.gdtCode, cfg.daC, priv),
        LdtDescriptor(cfg, env, isInit, env.gdtData, cfg.daDrw, priv),
        InitialRegs(cfg, rpl, t.initialEip, esp, eflags),
        prio, prio, 0, cfg.noTask, cfg.noTask, 0, 0, 0,
        NoFiles(cfg.nrFiles), prev.runnable)
  }

  /** The names INIT may carry need the flag constants to leave the access byte alone. */
  predicate BootOk(cfg: Config, tasks: seq<Template>, users: seq<Template>) {
    && ConfigOk(cfg)
    && TablesOk(cfg, tasks, users)
    && ((exists k :: 0 <= k < cfg.nrTasks + cfg.nrNativeProcs && TemplateAt(cfg, tasks, users, k).name == "INIT")
          ==> (cfg.da32 | cfg.daLimit4k) & 0xFF == 0)
  }

  /** Slot k after the boot loop, from its previous contents prev: a free
      slot only has p_flags set to FREE_SLOT; a populated one is filled
      from its template with the arena pointer as it stands at slot k. */
  function BootSlot(cfg: Config, env: BootEnv, tasks: seq<Template>, users: seq<Template>,
                    prev: Pcb, k: nat): (r: Pcb)
    requires BootOk(cfg, tasks, users)
    ensures r.runnable == prev.runnable
    ensures Populated(cfg, k) ==> r.flags == 0 && r.ticks == r.priority
  {
    if !Populated(cfg, k) then prev.(flags := cfg.freeSlot)
    else
      var t := TemplateAt(cfg, tasks, users, k);
      Populate(cfg, env, t, k < cfg.nrTasks, env.stackTop - StackUsed(cfg, tasks, users, k), prev)
  }

  /** What the boot loop leaves in slot k: free slots only gain FREE_SLOT;
      populated slots get p_flags 0, their template's name and entry point,
      the arena pointer as stack pointer, and the privilege, RPL, eflags
      and quantum of their class (task: 15, user process: 5). */
  lemma BootSlotFacts(cfg: Config, env: BootEnv, tasks: seq<Template>, users: seq<Template>,
                      prev: Pcb, k: nat)
    requires BootOk(cfg, tasks, users)
    ensures var p := BootSlot(cfg, env, tasks, users, prev, k);
      && (!Populated(cfg, k) ==> p == prev.(flags := cfg.freeSlot))
      && (Populated(cfg, k) ==>
            && p.flags == 0
            && p.regs.esp == env.stackTop - StackUsed(cfg, tasks, users, k)
            && p.name == TemplateAt(cfg, tasks, users, k).name
            && p.regs.eip == TemplateAt(cfg, tasks, users, k).initialEip
            && p.runnable == prev.runnable)
      && (Populated(cfg, k) && k < cfg.nrTasks ==>
            && p.ticks == 15 && p.priority == 15 && p.regs.eflags == 0x1202
            && Dpl(p.ldtCode) == cfg.privilegeTask && Dpl(p.ldtData) == cfg.privilegeTask
            && SelectorRpl(p.regs.cs) == cfg.rplTask && SelectorRpl(p.regs.ds) == cfg.rplTask)
      && (Populated(cfg, k) && k >= cfg.nrTasks ==>
            && p.ticks == 5 && p.priority == 5 && p.regs.eflags == 0x202
            && Dpl(p.ldtCode) == cfg.privilegeUser && Dpl(p.ldtData) == cfg.privilegeUser
            && SelectorRpl(p.regs.cs) == cfg.rplUser && SelectorRpl(p.regs.ds) == cfg.rplUser)
      && (Populated(cfg, k) ==>
            && p.parent == cfg.noTask && p.recvFrom == cfg.noTask && p.sendTo == cfg.noTask
            && p.msg == 0 && p.hasIntMsg == 0 && p.qSending == 0 && p.nextSending == 0
            && p.filp == NoFiles(cfg.nrFiles))
  {
  }

  /** A populated slot is its template populated at the arena pointer
      (INIT's flag condition holding), so PopulateFrame gives its
      descriptors and register frame. */
  lemma BootSlotPopulates(cfg: Config, env: BootEnv, tasks: seq<Template>, users: seq<Template>,
                          prev: Pcb, k: nat, t: Template, esp: int)
    requires BootOk(cfg, tasks, users) && Populated(cfg, k)
    requires t == TemplateAt(cfg, tasks, users, k) && esp == env.stackTop - StackUsed(cfg, tasks, users, k)
    ensures t.name == "INIT" ==> (cfg.da32 | cfg.daLimit4k) & 0xFF == 0
    ensures ConfigOk(cfg) && BootSlot(cfg, env, tasks, users, prev, k) == Populate(cfg, env, t, k < cfg.nrTasks, esp, prev)
  {
  }

  /** The descriptors and register frame Populate writes are those of the
      slot's class: task privilege, RPL and eflags 0x1202 for a task, user
      ones and 0x202 for a user process; INIT's descriptors span the kernel
      image (InitImageDesc). */
  lemma PopulateFrame(cfg: Config, env: BootEnv, t: Template, isTask: bool, esp: int, prev: Pcb)
    requires ConfigOk(cfg)
    requires t.name == "INIT" ==> (cfg.da32 | cfg.daLimit4k) & 0xFF == 0
    ensures var p := Populate(cfg, env, t, isTask, esp, prev);
      var priv := if isTask then cfg.privilegeTask else cfg.privilegeUser;
      var rpl := if isTask then cfg.rplTask else cfg.rplUser;
      && p.ldtCode == LdtDescriptor(cfg, env, t.name == "INIT", env.gdtCode, cfg.daC, priv)
      && p.ldtData == LdtDescriptor(cfg, env, t.name == "INIT", env.gdtData, cfg.daDrw, priv)
      && p.regs == InitialRegs(cfg, rpl, t.initialEip, esp, if isTask then 0x1202 else 0x202)
  {
  }

  // ---------------------------------------------------------------------
  // The stack arena: every populated slot owns [esp - stacksize, esp).

  lemma {:induction false} StackUsedStep(cfg: Config, tasks: seq<Template>, users: seq<Template>, k: nat)
    requires TablesOk(cfg, tasks, users) && Populated(cfg, k)
    ensures StackUsed(cfg, tasks, users, k + 1)
            == StackUsed(cfg, tasks, users, k) + TemplateAt(cfg, tasks, users, k).stacksize
  {
  }

  /** With non-negative sizes, the arena pointer only moves down: the
      stack used up to slot j is at most the stack used up to slot k >= j. */
  lemma {:induction false} StackUsedMonotone(cfg: Config, tasks: seq<Template>, users: seq<Template>, j: nat, k: nat)
    requires TablesOk(cfg, tasks, users) && j <= k
    requires forall i :: Populated(cfg, i) ==> TemplateAt(cfg, tasks, users, i).stacksize >= 0
    ensures StackUsed(cfg, tasks, users, j) <= StackUsed(cfg, tasks, users, k)
    decreases k - j
  {
    if j < k {
      StackUsedMonotone(cfg, tasks, users, j, k - 1);
    }
  }

  /** Free slots consume nothing: the stack used past the last populated
      slot stays at the total of the populated ones. */
  lemma {:induction false} StackUsedBeyondPopulated(cfg: Config, tasks: seq<Template>, users: seq<Template>, k: nat)
    requires TablesOk(cfg, tasks, users) && k >= cfg.nrTasks + cfg.nrNativeProcs
    ensures StackUsed(cfg, tasks, users, k) == StackUsed(cfg, tasks, users, cfg.nrTasks + cfg.nrNativeProcs)
  {
    if k > cfg.nrTasks + cfg.nrNativeProcs {
      StackUsedBeyondPopulated(cfg, tasks, users, k - 1);
    }
  }

  /** The bottom of the stack of populated slot k: esp minus its size. */
  function StackLow(cfg: Config, env: BootEnv, tasks: seq<Template>, users: seq<Template>, k: nat): int
    requires TablesOk(cfg, tasks, users) && Populated(cfg, k)
  {
    env.stackTop - StackUsed(cfg, tasks, users, k) - TemplateAt(cfg, tasks, users, k).stacksize
  }

  /** The stack of a populated slot lies inside the arena
      [stackTop - STACK_SIZE_TOTAL, stackTop]. */
  lemma StackInArena(cfg: Config, env: BootEnv, tasks: seq<Template>, users: seq<Template>, k: nat)
    requires TablesOk(cfg, tasks, users) && StacksFit(cfg, tasks, users) && Populated(cfg, k)
    ensures env.stackTop - cfg.stackSizeTotal <= StackLow(cfg, env, tasks, users, k)
    ensures StackLow(cfg, env, tasks, users, k) <= env.stackTop - StackUsed(cfg, tasks, users, k) <= env.stackTop
  {
    StackUsedStep(cfg, tasks, users, k);
    StackUsedMonotone(cfg, tasks, users, k + 1, cfg.nrTasks + cfg.nrNativeProcs);
    StackUsedMonotone(cfg, tasks, users, 0, k);
  }

  /** Two different populated slots get disjoint stacks: the later one's
      stack lies entirely below the earlier one's. */
  lemma StacksDisjoint(cfg: Config, env: BootEnv, tasks: seq<Template>, users: seq<Template>, j: nat, k: nat)
    requires TablesOk(cfg, tasks, users) && StacksFit(cfg, tasks, users)
    requires Populated(cfg, j) && Populated(cfg, k) && j < k
    ensures env.stackTop - StackUsed(cfg, tasks, users, k) <= StackLow(cfg, env, tasks, users, j)
  {
    StackUsedStep(cfg, tasks, users, j);
    StackUsedMonotone(cfg, tasks, users, j + 1, k);
  }
}

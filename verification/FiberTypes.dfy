/** What the fiber runtimes save of a thread, and the calls they answer. */
module FiberTypes {

  type Tid = int
  type Fid = int

  /** `unsigned long` arithmetic is modulo this. */
  const WORD := 0x1_0000_0000_0000_0000

  /** The user registers of a thread (`struct pt_regs`); `others` are those the runtimes only copy. */
  datatype Regs = Regs(ip: int, sp: int, bp: int, di: int, others: seq<int>)

  /** Registers together with the floating-point state. */
  datatype Context = Context(regs: Regs, fpu: int)

  /** One call of a thread into the runtime; `cpu` is the thread's context on entry and `clock` the
      reading of the system clock during the call. */
  datatype Call =
    | Convert(tid: Tid, cpu: Context, clock: int)
    | Create(tid: Tid, cpu: Context, func: int, parameters: int, stack: int, size: int)
    | SwitchTo(tid: Tid, id: Fid, cpu: Context, clock: int)

  /** The answer: the id of a converted or created fiber, failure, or the context a successful
      switch loads into the calling thread. */
  datatype Reply = Created(id: Fid) | Failed | Switched(cpu: Context)
}

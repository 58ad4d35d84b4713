/** The globals of Assignment_2/f22/main.cpp as mutable state, changed in place by the statements
    of `producer` and `consume`.  One call runs the next statement of one thread. */
module BoundedBufferProgram {
  import opened BoundedBuffer
  import opened BoundedBufferSafety

  class Program {
    // shared globals
    var buffer: seq<string>
    var holder: Holder
    var done: bool
    var inProgress: bool
    // standard input, the producer's position and its local `command`
    var input: seq<string>
    var ppc: ProducerPc
    var command: string
    // the consumers' positions and their local `jobs_complete`
    var cs: seq<ConsumerPc>
    var jobs: seq<nat>
    // history
    ghost var script: seq<string>
    ghost var read: seq<string>
    ghost var pushed: seq<string>
    ghost var popped: seq<Receipt>

    ghost function View(): State
      reads this
    {
      State(buffer, holder, done, inProgress, ppc, input, command, cs, jobs, read, pushed, popped)
    }

    ghost predicate Valid()
      reads this
    {
      Inv(View(), script)
    }

    constructor (n: nat, lines: seq<string>)
      ensures Valid() && View() == Init(n, lines) && script == lines
    {
      buffer, holder, done, inProgress := [], Free, false, false;
      input, ppc, command := lines, PStart, "";
      cs, jobs := seq(n, _ => CLoop), seq(n, _ => 0);
      script, read, pushed, popped := lines, [], [], [];
      new;
      InitInv(n, lines);
    }

    method StepProducer(woken: set<nat>)
      requires ProducerEnabled(View(), woken)
      modifies this
      ensures script == old(script) && View() == ProducerStep(old(View()), woken)
    {
      match ppc {
        case PStart =>
          inProgress := true;
          ppc := PRead;
        case PRead =>
          if input == [] {
            ppc := PSetDone;
          } else {
            command := input[0];
            input := input[1..];
            read := read + [command];
            if IsWork(command) {
              ppc := PLock;
            }
          }
        case PLock | PReacquire =>
          holder := ByProducer;
          ppc := PTest;
        case PTest =>
          if |buffer| >= 2 * |cs| {
            ppc := PWait;
          } else {
            ppc := PPush;
          }
        case PWait =>
          holder := Free;
          ppc := PBlocked;
        case PPush =>
          buffer := buffer + [command];
          pushed := pushed + [command];
          ppc := PSignal;
        case PSignal =>
          cs := Wake(cs, woken);
          ppc := PUnlock;
        case PUnlock =>
          holder := Free;
          ppc := PRead;
        case PSetDone =>
          done := true;
          ppc := PLockLast;
        case PLockLast =>
          holder := ByProducer;
          ppc := PBroadcast;
        case PBroadcast =>
          cs := Wake(cs, Blocked(cs));
          ppc := PUnlockLast;
        case PUnlockLast =>
          holder := Free;
          ppc := PClear;
        case PClear =>
          inProgress := false;
          ppc := PReturned;
      }
    }

    method StepConsumer(i: nat)
      requires ConsumerEnabled(View(), i)
      modifies this
      ensures script == old(script) && View() == ConsumerStep(old(View()), i)
    {
      var next;
      match cs[i] {
        case CLoop =>
          if inProgress {
            next := CLock;
          } else if ppc == PStart {
            next := CLeftEarly;
          } else {
            next := CLeftStopped;
          }
        case CLock | CReacquire | CSpurious =>
          holder := ByConsumer(i);
          next := CTest;
        case CTest =>
          if buffer == [] {
            next := CDone;
          } else {
            next := CPop;
          }
        case CDone =>
          if done {
            next := CUnlockExit;
          } else {
            next := CWait;
          }
        case CWait =>
          holder := Free;
          next := CBlocked;
        case CPop =>
          popped := popped + [Receipt(i, buffer[0])];
          buffer := buffer[1..];
          next := CSignal;
        case CSignal =>
          if ppc == PBlocked {
            ppc := PReacquire;
          }
          next := CUnlock;
        case CUnlock =>
          holder := Free;
          next := CWork;
        case CWork =>
          jobs := jobs[i := jobs[i] + 1];
          next := CLoop;
        case CUnlockExit =>
          holder := Free;
          next := CLeftDrained;
      }
      cs := cs[i := next];
    }

    /** POSIX allows a blocked thread to wake without a signal. */
    method WakeSpuriously(a: Action)
      requires a.Spurious() && Enabled(View(), a)
      modifies this
      ensures script == old(script) && View() == Apply(old(View()), a)
    {
      if a.SpuriousProducer? {
        ppc := PReacquire;
      } else {
        cs := cs[a.i := CSpurious];
      }
    }

    /** The scheduler picks `a`: every choice keeps the invariant. */
    method Step(a: Action)
      requires Valid() && Enabled(View(), a)
      modifies this
      ensures Valid() && script == old(script)
      ensures View() == Apply(old(View()), a)
    {
      StepKeepsInv(View(), a, script);
      match a {
        case Producer(woken) => StepProducer(woken);
        case Consumer(i) => StepConsumer(i);
        case _ => WakeSpuriously(a);
      }
    }
  }
}

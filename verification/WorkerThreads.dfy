/** ThreadsTcpBroWorker and SocketContext as the objects the threads share and update in
    place. Each method is one atomic action; DoWork interleaves them under an arbitrary
    schedule. Every update is proved to be the step of the relation in Worker. */
module WorkerThreads {
  import opened Socket
  import opened Worker
  import opened WorkerInvariants
  import opened WorkerPredicates
  import opened WorkerSafety

  class SocketContext {
    // whether it is an IPV4SocketContext, which the worker's threads cast it to
    const mIsIPV4: bool
    var mClientFd: int
    var mRequest: seq<Byte>
    var mResponse: seq<Byte>

    constructor (fd: int, isIPV4: bool)
      ensures mIsIPV4 == isIPV4 && mClientFd == fd && mRequest == [] && mResponse == []
    {
      mIsIPV4, mClientFd, mRequest, mResponse := isIPV4, fd, [], [];
    }
  }

  class ThreadsTcpBroWorker {
    const mContext: SocketContext
    // the gates, and the interrupt requests on mRecvThread and mSendThread
    var mIsReadEnabled: bool
    var mIsWriteEnabled: bool
    var mRecvInterrupt: bool
    var mSendInterrupt: bool
    // who holds which mutex, and where every thread is
    var mHeld: map<MutexId, Tid>
    var mRecv: RecvPc
    var mSend: SendPc
    var mClients: map<nat, ClientPc>
    // the socket, and the account of what has happened
    var mIncoming: seq<Byte>
    var mWire: seq<Byte>
    var mLog: Log

    function View(): State
      reads this, mContext
    {
      State(mContext.mIsIPV4, Context(mContext.mClientFd, mContext.mRequest, mContext.mResponse),
            Flags(mIsReadEnabled, mIsWriteEnabled, mRecvInterrupt, mSendInterrupt),
            mHeld, mRecv, mSend, mClients, Net(mIncoming, mWire), mLog)
    }

    constructor (context: SocketContext)
      requires context.mRequest == [] && context.mResponse == []
      ensures mContext == context && View() == Init(context.mClientFd, context.mIsIPV4)
    {
      mContext := context;
      mIsReadEnabled, mIsWriteEnabled := true, false;
      mRecvInterrupt, mSendInterrupt := false, false;
      mHeld, mClients := map[], map[];
      mRecv, mSend := RGate(GStart), SGate(GStart);
      mIncoming, mWire := [], [];
      mLog := Log(0, 0, {[]}, [], false, false);
    }

    method SetGate(side: Side, g: GatePc)
      modifies this`mRecv, this`mSend
      ensures View() == ToGate(old(View()), side, g)
    {
      if side == Recv {
        mRecv := RGate(g);
      } else {
        mSend := SGate(g);
      }
    }

    method SetExit(side: Side, x: ExitPc)
      modifies this`mRecv, this`mSend
      ensures View() == ToExit(old(View()), side, x)
    {
      if side == Recv {
        mRecv := RExit(x);
      } else {
        mSend := SExit(x);
      }
    }

    method TryLock(m: MutexId, t: Tid) returns (locked: bool)
      modifies this`mHeld
      ensures locked <==> m !in old(mHeld)
      ensures View() == if locked then Lock(old(View()), m, t) else old(View())
    {
      locked := m !in mHeld;
      if locked {
        mHeld := mHeld[m := t];
      }
    }

    method EnableReadEvent()
      modifies this`mIsReadEnabled
      ensures View() == RaiseRead(old(View()))
    {
      mIsReadEnabled := true;
    }

    method EnableWriteEvent()
      modifies this`mIsWriteEnabled, this`mLog
      ensures View() == RaiseWrite(old(View()))
    {
      mIsWriteEnabled := true;
      mLog := mLog.(enables := mLog.enables + 1);
    }

    /** boost::this_thread::interruption_point(), and the return it may cause. */
    method InterruptionPoint(side: Side)
      modifies this
      ensures Some(View()) == GateStep(old(View()), side, GPoint)
    {
      if side == Recv && mRecvInterrupt {
        mRecvInterrupt := false;
        mRecv := RExit(XLock);
      } else if side == Send && mSendInterrupt {
        mSendInterrupt := false;
        mSend := SExit(XLock);
      } else {
        SetGate(side, GLock);
      }
    }

    /** The test of the gate's flag: pass, or release the mutex and sleep. */
    method TestGate(side: Side)
      modifies this
      ensures Some(View()) == GateStep(old(View()), side, GTest)
    {
      if side == Recv && mIsReadEnabled {
        mRecv := RGate(GUnlock);
      } else if side == Send && mIsWriteEnabled {
        mSend := SGate(GClear);
      } else {
        mHeld := mHeld - {GateMutex(side)};
        SetGate(side, GAsleep);
      }
    }

    /** From the top of the loop to the gate, for either thread. */
    method PassGate(side: Side, g: GatePc) returns (moved: bool)
      modifies this
      ensures moved <==> GateStep(old(View()), side, g).Some?
      ensures View() == if moved then GateStep(old(View()), side, g).value else old(View())
    {
      moved := true;
      match g {
        case GStart =>
          if mContext.mIsIPV4 {
            SetGate(side, GPoint);
          } else if side == Recv {
            mRecv := RDone;
          } else {
            mSend := SDone;
          }
        case GPoint => InterruptionPoint(side);
        case GLock =>
          moved := TryLock(GateMutex(side), Thread(side));
          if moved {
            SetGate(side, GTest);
          }
        case GTest => TestGate(side);
        case GAsleep => SetGate(side, GWoken);
        case GWoken =>
          moved := TryLock(GateMutex(side), Thread(side));
          if moved {
            SetGate(side, GTest);
          }
        case GClear =>
          if side == Recv {
            moved := false;
          } else {
            mIsWriteEnabled := false;
            mLog := mLog.(passes := mLog.passes + 1,
                          consumedEarly := mLog.consumedEarly || RaisedNotInterrupted(mRecv));
            mSend := SGate(GUnlock);
          }
        case GUnlock =>
          mHeld := mHeld - {GateMutex(side)};
          if side == Recv {
            mRecv := RCall;
          } else {
            mSend := SLockResponse;
          }
      }
    }

    /** The scope-exit handler, for either thread. */
    method Leave(side: Side, x: ExitPc) returns (moved: bool)
      modifies this, mContext
      ensures moved <==> ExitStep(old(View()), side, x).Some?
      ensures View() == if moved then ExitStep(old(View()), side, x).value else old(View())
    {
      moved := true;
      match x {
        case XLock =>
          moved := TryLock(ContextMutex, Thread(side));
          if moved {
            SetExit(side, XClose);
          }
        case XClose => SetExit(side, XAssign);
        case XAssign =>
          mContext.mClientFd := INVALID_FD;
          SetExit(side, XUnlock);
        case XUnlock =>
          mHeld := mHeld - {ContextMutex};
          SetExit(side, XLockGate);
        case XLockGate =>
          moved := TryLock(GateMutex(Other(side)), Thread(side));
          if moved {
            SetExit(side, XRaise);
          }
        case XRaise =>
          if side == Recv {
            EnableWriteEvent();
          } else {
            EnableReadEvent();
          }
          SetExit(side, XUnlockGate);
        case XUnlockGate =>
          mHeld := mHeld - {GateMutex(Other(side))};
          SetExit(side, XInterrupt);
        case XInterrupt =>
          if side == Recv {
            mSendInterrupt := true;
          } else {
            mRecvInterrupt := true;
          }
          SetExit(side, XNotify);
        case XNotify =>
          if side == Recv {
            if mSend == SGate(GAsleep) {
              mSend := SGate(GWoken);
            }
            mRecv := RDone;
          } else {
            if mRecv == RGate(GAsleep) {
              mRecv := RGate(GWoken);
            }
            mSend := SDone;
          }
      }
    }

    /** One action of handleReadEvent; false if it has to wait for a mutex or is over. */
    method HandleReadEvent(o: Outcome) returns (moved: bool)
      modifies this, mContext
      ensures moved <==> RecvStep(old(View()), o).Some?
      ensures View() == if moved then RecvStep(old(View()), o).value else old(View())
    {
      moved := true;
      match mRecv {
        case RGate(g) => moved := PassGate(Recv, g);
        case RCall => mRecv := RInRecv(mContext.mClientFd);
        case RInRecv(fd) =>
          var rb := OnFd(fd, RecvRet(o, MAX_MESSAGEBUFF_LEN, |mIncoming|));
          if rb.Again? {
            mRecv := RGate(GPoint);
          } else if rb.Fail? || rb.count == 0 {
            mRecv := RExit(XLock);
          } else {
            mRecv := RLockRequest(mIncoming[..rb.count]);
            mIncoming := mIncoming[rb.count..];
          }
        case RLockRequest(chunk) =>
          moved := TryLock(RequestMutex, Thread(Recv));
          if moved {
            mRecv := RAppend(chunk);
          }
        case RAppend(chunk) =>
          mContext.mRequest := mContext.mRequest + chunk;
          mRecv := RUnlockRequest;
        case RUnlockRequest =>
          mHeld := mHeld - {RequestMutex};
          mRecv := RGate(GPoint);
        case RExit(x) => moved := Leave(Recv, x);
        case RDone => moved := false;
      }
    }

    /** One action of handleWriteEvent; false if it has to wait for a mutex or is over. */
    method HandleWriteEvent(o: Outcome) returns (moved: bool)
      modifies this, mContext
      ensures moved <==> SendStep(old(View()), o).Some?
      ensures View() == if moved then SendStep(old(View()), o).value else old(View())
    {
      moved := true;
      match mSend {
        case SGate(g) => moved := PassGate(Send, g);
        case SLockResponse =>
          moved := TryLock(ResponseMutex, Thread(Send));
          if moved {
            mSend := SSnapshot;
          }
        case SSnapshot =>
          mSend := SUnlockResponse(mContext.mResponse);
          mLog := mLog.(snapshots := mLog.snapshots + [mContext.mResponse]);
        case SUnlockResponse(left) =>
          mHeld := mHeld - {ResponseMutex};
          mSend := SCall(left);
        case SCall(left) => mSend := SSending(left, mContext.mClientFd);
        case SSending(left, fd) =>
          if left == [] {
            mSend := SGate(GPoint);
          } else {
            var sb := OnFd(fd, SendRet(o, |left|));
            if sb.Again? {
            } else if sb.Fail? || sb.count == 0 {
              mSend := SExit(XLock);
            } else {
              mWire := mWire + left[..sb.count];
              mSend := SSending(left[sb.count..], fd);
            }
          }
        case SExit(x) => moved := Leave(Send, x);
        case SDone => moved := false;
      }
    }

    /** The body of a client operation, under its mutex. */
    method ApplyOp(op: Op)
      modifies this, mContext
      ensures View() == Apply(old(View()), op) && mClients == old(mClients)
    {
      match op {
        case EnableRead => EnableReadEvent();
        case DisableRead => mIsReadEnabled := false;
        case EnableWrite => EnableWriteEvent();
        case DisableWrite =>
          mIsWriteEnabled := false;
          mLog := mLog.(withdrawnEarly := mLog.withdrawnEarly || RaisedNotInterrupted(mRecv));
        case SetResponse(bytes) =>
          mContext.mResponse := bytes;
          mLog := mLog.(published := mLog.published + {bytes});
        case PeekRequest =>
      }
    }

    /** One action of client thread id; false if it is not its turn. */
    method ClientAction(id: nat, act: ClientAct) returns (moved: bool)
      modifies this, mContext
      ensures moved <==> ClientStep(old(View()), id, act).Some?
      ensures View() == if moved then ClientStep(old(View()), id, act).value else old(View())
    {
      hide Apply;
      moved := false;
      if id !in mClients {
        if act.Begin? {
          mClients := mClients[id := CWaiting(act.op)];
          moved := true;
        }
      } else {
        match (mClients[id], act) {
          case (CWaiting(op), Go) =>
            moved := TryLock(MutexOf(op), Client(id));
            if moved {
              mClients := mClients[id := CHolding(op)];
            }
          case (CHolding(op), Go) =>
            ApplyOp(op);
            mClients := mClients[id := CApplied(op)];
            moved := true;
          case (CHolding(op), Scribble(bytes)) =>
            if op.SetResponse? {
              mContext.mResponse := bytes;
              moved := true;
            }
          case (CApplied(op), Go) =>
            mHeld := mHeld - {MutexOf(op)};
            mClients := mClients - {id};
            moved := true;
          case _ =>
        }
      }
    }

    /** One action of whichever thread the label names, or the arrival of bytes from the peer. */
    method Act(l: Label) returns (moved: bool)
      modifies this, mContext
      ensures moved <==> Step(old(View()), l).Some?
      ensures View() == if moved then Step(old(View()), l).value else old(View())
    {
      hide RecvStep, SendStep, ClientStep;
      match l {
        case RecvThread(o) => moved := HandleReadEvent(o);
        case SendThread(o) => moved := HandleWriteEvent(o);
        case ClientThread(id, act) => moved := ClientAction(id, act);
        case PeerSends(bytes) =>
          mIncoming := mIncoming + bytes;
          moved := true;
      }
    }

    /** doWork(): the two threads, the clients and the peer, interleaved as the schedule says,
        up to the first action that cannot be taken. Whatever the schedule, a worker started
        in a state that keeps the invariant keeps it. */
    method DoWork(schedule: seq<Label>) returns (done: nat)
      modifies this, mContext
      ensures done <= |schedule|
      ensures Exec(old(View()), schedule[..done]) == Some(View())
      ensures done < |schedule| ==> Step(View(), schedule[done]).None?
      ensures old(Inv(View())) ==> Inv(View())
      ensures Stream(View()) == Stream(old(View())) + PeerSent(schedule[..done])
    {
      hide Step;
      done := 0;
      while done < |schedule|
        invariant done <= |schedule|
        invariant Exec(old(View()), schedule[..done]) == Some(View())
      {
        var moved := Act(schedule[done]);
        if !moved {
          break;
        }
        ExecSnoc(old(View()), schedule[..done], schedule[done]);
        assert schedule[..done + 1] == schedule[..done] + [schedule[done]];
        done := done + 1;
      }
      if old(Inv(View())) {
        ExecKeepsInv(old(View()), schedule[..done]);
      }
      RunKeepsStream(old(View()), schedule[..done]);
    }
  }
}

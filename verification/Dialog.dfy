/** ui_client/src/MainDlg.cpp: who may use the dialog's socket.

    Messages to the dialog are handled one at a time; the worker thread runs beside them, a step
    at a time.  Closing the dialog is not among the events. */
module Dialog {

  /** m_socket; a valid handle is the number of the socket created. */
  datatype Handle = Invalid | Valid(id: nat)

  /** Where the worker is: about to test m_connected, talking to the server, closing the socket,
      about to clear m_connected, about to post its message. */
  datatype Worker =
    | NoWorker | Starting(logout: bool) | Talking(logout: bool) | Closing | Clearing | Reporting

  datatype State = State(
    socket: Handle,
    connected: bool,
    connectOn: bool,
    runOn: bool,
    disconnectOn: bool,
    worker: Worker,
    pending: nat,
    created: nat,
    closed: nat)

  /** What happens with one address of the host. */
  datatype Attempt = NoSocket | NoAnswer | Answer

  datatype Choice = NoSelection | Separator | Command(logout: bool)

  /** Clicks on the buttons, the worker's message arriving, and the worker's own steps: the next
      one, or more sending and receiving. */
  datatype Event =
    | ClickConnect(hostGiven: bool, addresses: seq<Attempt>)
    | ClickDisconnect
    | ClickRun(choice: Choice)
    | DoneMessage
    | WorkerNext
    | WorkerTalk

  /** Connect is the only button not disabled at the start. */
  function Start(): State {
    State(Invalid, false, true, false, false, NoWorker, 0, 0, 0)
  }

  /** How many sockets trying the addresses opens and closes, and whether one answers. */
  datatype Dialled = Dialled(created: nat, closed: nat, ok: bool)

  function Dial(addresses: seq<Attempt>): (d: Dialled)
    ensures d.created == d.closed + (if d.ok then 1 else 0)
    ensures d.ok <==> Answer in addresses
  {
    if addresses == [] then Dialled(0, 0, false)
    else
      match addresses[0]
      case Answer => Dialled(1, 0, true)
      case NoSocket => Dial(addresses[1..])
      case NoAnswer =>
        var d := Dial(addresses[1..]);
        Dialled(d.created + 1, d.closed + 1, d.ok)
  }

  function Connect(s: State, addresses: seq<Attempt>): State {
    var d := Dial(addresses);
    var t := s.(created := s.created + d.created, closed := s.closed + d.closed);
    if d.ok then t.(socket := Valid(t.created), connected := true) else t
  }

  function Disconnect(s: State): State {
    if s.socket.Invalid? then s else s.(socket := Invalid, connected := false, closed := s.closed + 1)
  }

  function Buttons(s: State, connect: bool, disconnect: bool, run: bool): State {
    s.(connectOn := connect, disconnectOn := disconnect, runOn := run)
  }

  function OnWorkerDone(s: State): State {
    if s.connected then s.(runOn := true, disconnectOn := true) else Buttons(s, true, false, false)
  }

  function NextOfWorker(s: State): State {
    match s.worker
    case NoWorker => s
    case Starting(logout) => s.(worker := if s.connected then Talking(logout) else Reporting)
    case Talking(logout) => s.(worker := if logout && s.socket.Valid? then Closing else Reporting)
    case Closing => s.(worker := Clearing, socket := Invalid, closed := s.closed + 1)
    case Clearing => s.(worker := Reporting, connected := false)
    case Reporting => s.(worker := NoWorker, pending := s.pending + 1)
  }

  function Step(s: State, e: Event): State {
    match e
    case ClickConnect(hostGiven, addresses) =>
      if !s.connectOn || !hostGiven then s
      else
        var t := Connect(s, addresses);
        if Dial(addresses).ok then Buttons(t, false, true, true) else t
    case ClickDisconnect =>
      if !s.disconnectOn then s else Buttons(Disconnect(s), true, false, false)
    case ClickRun(choice) =>
      if !s.runOn || !choice.Command? then s
      else s.(runOn := false, disconnectOn := false, worker := Starting(choice.logout))
    case DoneMessage => if s.pending == 0 then s else OnWorkerDone(s.(pending := s.pending - 1))
    case WorkerNext => NextOfWorker(s)
    case WorkerTalk => s
  }

  function Run(events: seq<Event>): State {
    if events == [] then Start() else Step(Run(events[..|events| - 1]), events[|events| - 1])
  }

  // ---------------------------------------------------------------------------------------

  /** A worker is active, or its message is still to be handled. */
  predicate Busy(s: State) {
    !s.worker.NoWorker? || s.pending > 0
  }

  /** Ownership.  At most one worker or message; while there is one, no button that uses the
      socket is enabled; otherwise the buttons tell whether there is a connection.  m_connected
      says whether the socket is valid, but for the worker's moment between closing it and
      saying so.  Every socket created is closed or the current one: none is overwritten. */
  ghost predicate Inv(s: State) {
    && s.pending <= 1 && (s.pending == 1 ==> s.worker.NoWorker?)
    && (Busy(s) ==> !s.connectOn && !s.runOn && !s.disconnectOn)
    && (!Busy(s) ==> s.runOn == s.disconnectOn == s.connected && s.connectOn == !s.connected)
    && (!s.worker.Clearing? ==> s.connected == s.socket.Valid?)
    && (s.worker.Clearing? ==> s.connected && s.socket.Invalid?)
    && (s.worker.Starting? || s.worker.Talking? || s.worker.Closing? ==> s.socket.Valid?)
    && s.created == s.closed + (if s.socket.Valid? then 1 else 0)
    && (s.socket.Valid? ==> s.socket.id == s.created)
  }

  lemma StepKeeps(s: State, e: Event)
    requires Inv(s)
    ensures Inv(Step(s, e))
  {
    hide Dial;
  }

  lemma {:induction false} RunKeeps(events: seq<Event>)
    ensures Inv(Run(events))
  {
    hide Step, Inv;
    if events == [] {
      StartHolds();
    } else {
      RunKeeps(events[..|events| - 1]);
      StepKeeps(Run(events[..|events| - 1]), events[|events| - 1]);
    }
  }

  lemma StartHolds()
    ensures Inv(Start())
  {
  }

  predicate Click(e: Event) {
    e.ClickConnect? || e.ClickDisconnect? || e.ClickRun?
  }

  /** While a worker owns the socket no click does anything, and the worker, once talking, has a
      live socket until it closes it itself. */
  lemma WorkerOwnsSocket(events: seq<Event>, e: Event)
    requires Busy(Run(events)) && !e.WorkerNext? && !e.WorkerTalk?
    ensures var s, t := Run(events), Run(events + [e]);
            && (Click(e) ==> t == s)
            && t.socket == s.socket && t.connected == s.connected && t.worker == s.worker
            && (s.worker.Starting? || s.worker.Talking? || s.worker.Closing? ==> s.socket.Valid?)
  {
    hide Run;
    RunKeeps(events);
    RunOne(events, e);
  }

  /** Clicks that do nothing: on Connect without a host or with a connection, on Disconnect or Run
      without one, and on Run with no command selected. */
  lemma ClicksWithoutEffect(events: seq<Event>, addresses: seq<Attempt>, choice: Choice)
    ensures var s := Run(events);
            && Run(events + [ClickConnect(false, addresses)]) == s
            && (s.connected ==> Run(events + [ClickConnect(true, addresses)]) == s)
            && (!s.connected ==> Run(events + [ClickDisconnect]) == Run(events + [ClickRun(choice)]) == s)
            && (!choice.Command? ==> Run(events + [ClickRun(choice)]) == s)
            && (s.pending == 0 ==> Run(events + [DoneMessage]) == s)
  {
    hide Run, Dial;
    RunKeeps(events);
    RunOne(events, ClickConnect(false, addresses));
    RunOne(events, ClickConnect(true, addresses));
    RunOne(events, ClickDisconnect);
    RunOne(events, ClickRun(choice));
    RunOne(events, DoneMessage);
  }

  lemma RunOne(events: seq<Event>, e: Event)
    ensures Run(events + [e]) == Step(Run(events), e)
  {
    hide Step;
    assert (events + [e])[..|events|] == events;
  }

  /** A new connection is only made when there is none, so no live socket is lost. */
  lemma NoSocketLost(events: seq<Event>, e: Event)
    requires Run(events + [e]).created > Run(events).created
    ensures var s, t := Run(events), Run(events + [e]);
            && s.socket.Invalid? && !s.connected && !Busy(s) && s.created == s.closed
            && (t.socket.Valid? <==> Answer in e.addresses)
            && t.created == t.closed + (if t.socket.Valid? then 1 else 0)
  {
    hide Run, Dial;
    RunKeeps(events);
    RunOne(events, e);
  }

  // ---------------------------------------------------------------------------------------
  // What clicks do

  /** The addresses are tried in turn up to the first that answers, and no further. */
  lemma {:induction false} DialsInTurn(before: seq<Attempt>, behind: seq<Attempt>)
    requires Answer !in before
    ensures var d, e := Dial(before + [Answer] + behind), Dial(before);
            && d.ok && !e.ok && d.created == e.created + 1 && d.closed == e.closed
            && e.created == e.closed == multiset(before)[NoAnswer]
  {
    var all := before + [Answer] + behind;
    if before != [] {
      DialsInTurn(before[1..], behind);
      assert all[1..] == before[1..] + [Answer] + behind;
      assert before == [before[0]] + before[1..];
    }
  }

  /** Whenever no worker is busy, the buttons do what they say.  Without a connection: Connect,
      given a host, makes one exactly if an address answers.  With one: Disconnect ends it, and
      Run with a command hands the socket to a worker. */
  lemma ClicksTakeEffect(events: seq<Event>, addresses: seq<Attempt>, logout: bool)
    requires !Busy(Run(events))
    ensures var s := Run(events);
            if !s.connected then
              var t := Run(events + [ClickConnect(true, addresses)]);
              && s.socket.Invalid? && !Busy(t)
              && (t.connected <==> Answer in addresses) && t.socket.Valid? == t.runOn == t.disconnectOn == t.connected
              && t.connectOn == !t.connected
            else
              var t, u := Run(events + [ClickDisconnect]), Run(events + [ClickRun(Command(logout))]);
              && !t.connected && t.socket.Invalid? && t.closed == t.created && t.connectOn && !Busy(t)
              && Busy(u) && u.worker == Starting(logout) && u.socket == s.socket == Valid(s.created)
              && !u.connectOn && !u.runOn && !u.disconnectOn
  {
    hide Run, Dial;
    RunKeeps(events);
    RunOne(events, ClickConnect(true, addresses));
    RunOne(events, ClickDisconnect);
    RunOne(events, ClickRun(Command(logout)));
  }

  // ---------------------------------------------------------------------------------------
  // A command runs to its end

  function WorkerRank(w: Worker): nat {
    match w
    case NoWorker => 0
    case Reporting => 1
    case Clearing => 2
    case Closing => 3
    case Talking(_) => 4
    case Starting(_) => 5
  }

  /** The worker's steps, one after the other, until it is gone. */
  function WorkerRun(s: State): State
    decreases WorkerRank(s.worker)
  {
    if s.worker.NoWorker? then s else WorkerRun(Step(s, WorkerNext))
  }

  lemma {:induction false} RunKeepsInv(s: State)
    requires Inv(s)
    ensures Inv(WorkerRun(s)) && WorkerRun(s).worker.NoWorker?
    decreases WorkerRank(s.worker)
  {
    hide Inv;
    if !s.worker.NoWorker? {
      StepKeeps(s, WorkerNext);
      RunKeepsInv(Step(s, WorkerNext));
    }
  }

  /** The state a command leaves behind: its message posted, and after a logout the socket
      closed. */
  function Ended(s: State, logout: bool): State {
    var t := s.(worker := NoWorker, pending := s.pending + 1);
    if logout then Disconnect(t) else t
  }

  lemma {:induction false} CommandRun(s: State)
    requires Inv(s) && s.worker.Starting?
    ensures WorkerRun(s) == Ended(s, s.worker.logout)
  {
    var talking := Step(s, WorkerNext);
    var next := Step(talking, WorkerNext);
    assert WorkerRun(s) == WorkerRun(talking) == WorkerRun(next);
    if s.worker.logout {
      var clearing := Step(next, WorkerNext);
      var reporting := Step(clearing, WorkerNext);
      assert WorkerRun(next) == WorkerRun(clearing) == WorkerRun(reporting) == Step(reporting, WorkerNext);
    } else {
      assert WorkerRun(next) == Step(next, WorkerNext);
    }
  }

  /** Where a command's steps end: one message is pending; after a logout every socket is closed,
      after anything else the connection is as it was; and handling the message gives the
      buttons back as the connection stands. */
  lemma CommandEnds(s: State)
    requires Inv(s) && s.worker.Starting?
    ensures var t := WorkerRun(s);
            var u := Step(t, DoneMessage);
            && Inv(t) && t.pending == 1 && t.created == s.created
            && (if s.worker.logout then t.socket.Invalid? && !t.connected && t.closed == t.created
                else t.socket == s.socket && t.connected == s.connected && t.closed == s.closed)
            && Inv(u) && !Busy(u) && u.connected == t.connected
            && u.runOn == u.disconnectOn == t.connected && u.connectOn == !t.connected
  {
    hide WorkerRun;
    RunKeepsInv(s);
    CommandRun(s);
    StepKeeps(WorkerRun(s), DoneMessage);
  }

  // ---------------------------------------------------------------------------------------
  // The dialog object

  class MainDlg {
    var socket: Handle
    var connected: bool
    var connectOn: bool
    var runOn: bool
    var disconnectOn: bool
    var worker: Worker
    var pending: nat
    var created: nat
    var closed: nat

    function View(): State
      reads this
    {
      State(socket, connected, connectOn, runOn, disconnectOn, worker, pending, created, closed)
    }

    /** OnInitDialog. */
    constructor ()
      ensures View() == Start()
    {
      socket, connected, worker, pending, created, closed := Invalid, false, NoWorker, 0, 0, 0;
      connectOn, runOn, disconnectOn := true, false, false;
    }

    method OnBnClickedConnect(hostGiven: bool, addresses: seq<Attempt>)
      requires connectOn
      modifies this
      ensures View() == Step(old(View()), ClickConnect(hostGiven, addresses))
    {
      if !hostGiven {
        return;
      }
      var ok := DoConnect(addresses);
      if ok {
        connectOn, disconnectOn, runOn := false, true, true;
      }
    }

    /** Tries the addresses in turn and keeps the first socket that connects. */
    method DoConnect(addresses: seq<Attempt>) returns (ok: bool)
      modifies this`socket, this`connected, this`created, this`closed
      ensures View() == Connect(old(View()), addresses) && ok == Dial(addresses).ok
    {
      var i := 0;
      assert addresses[0..] == addresses;
      while i < |addresses|
        invariant 0 <= i <= |addresses| && socket == old(socket) && connected == old(connected)
        invariant var d, e := Dial(addresses), Dial(addresses[i..]);
                  && d.ok == e.ok
                  && old(created) + d.created == created + e.created
                  && old(closed) + d.closed == closed + e.closed
      {
        var attempt := addresses[i];
        assert addresses[i..][1..] == addresses[i + 1..];
        i := i + 1;
        if attempt.NoSocket? { continue; }
        created := created + 1;
        if attempt.Answer? {
          socket, connected := Valid(created), true;
          return true;
        }
        closed := closed + 1;
      }
      ok := false;
    }

    method DoDisconnect()
      modifies this`socket, this`connected, this`closed
      ensures View() == Disconnect(old(View()))
    {
      if socket != Invalid {
        closed := closed + 1;
        socket := Invalid;
        connected := false;
      }
    }

    method OnBnClickedDisconnect()
      requires disconnectOn
      modifies this
      ensures View() == Step(old(View()), ClickDisconnect)
    {
      DoDisconnect();
      connectOn, disconnectOn, runOn := true, false, false;
    }

    method OnBnClickedRun(choice: Choice)
      requires runOn
      modifies this
      ensures View() == Step(old(View()), ClickRun(choice))
    {
      if choice.NoSelection? || choice.Separator? {
        return;
      }
      runOn := false;
      disconnectOn := false;
      worker := Starting(choice.logout);
    }

    method OnWorkerDone()
      requires pending > 0
      modifies this
      ensures View() == Step(old(View()), DoneMessage)
    {
      pending := pending - 1;
      if connected {
        runOn := true;
        disconnectOn := true;
      } else {
        connectOn, disconnectOn, runOn := true, false, false;
      }
    }

    /** The worker's thread, from launch to message: all its steps in a row. */
    method RunWorker()
      requires worker.Starting? && Inv(View())
      modifies this
      ensures View() == WorkerRun(old(View())) && Inv(View())
    {
      hide WorkerRun;
      CommandRun(View());
      RunKeepsInv(View());
      if connected {
        worker := Talking(worker.logout);
        if worker.logout {
          DoDisconnect();
        }
      }
      worker := NoWorker;
      pending := pending + 1;
    }
  }
}

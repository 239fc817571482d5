/** The door module put together: a COMMAND comes in, the lock acts, the new state is
    reported, and the FEEDBACK goes out after it. */
module DoorModule {
  import opened DoorReporter
  import opened Stepper
  import opened LockController

  /** The reading a report turns into; the unused channels are always false. */
  function ReadingOf(r: Report, t: int): Reading
  {
    Reading(r.d0Open, false, false, r.d1Locked, t)
  }

  /** The lines of the update that ends a command, if the sensor let it report. */
  function UpdateLines(door: Door, reports: seq<Report>, t: int): seq<string>
  {
    if reports == [] then [] else PrintAll(door.moduleId, Sends(door, ReadingOf(reports[0], t)))
  }

  function DoorAfter(door: Door, reports: seq<Report>, t: int): Door
  {
    if reports == [] then door else DoorReporter.After(door, ReadingOf(reports[0], t))
  }

  /** Everything sent for one datagram. */
  function Response(door: Door, lock: Lock, datagram: string, env: Env, t: int): seq<string>
  {
    match ParseCommand(door.moduleId, datagram)
    case Ignored => []
    case Command(cmdid, target, action) =>
      UpdateLines(door, Perform(lock, action, env).reports, t) +
      if door.socketOpen then [FeedbackLine(door.moduleId, cmdid, target, Answer(lock, action, env))] else []
  }

  /** The update that ends a command. */
  method Tell(reporter: Reporter, report: seq<Report>, now: int)
    modifies reporter
    ensures reporter.Abs() == DoorAfter(old(reporter.Abs()), report, now)
    ensures reporter.sent == old(reporter.sent) + UpdateLines(old(reporter.Abs()), report, now)
  {
    if report != [] {
      reporter.Update(ReadingOf(report[0], now));
    }
  }

  /** After() never closes the socket or renames the module. */
  lemma SameSession(door: Door, reports: seq<Report>, t: int)
    ensures DoorAfter(door, reports, t).socketOpen == door.socketOpen
    ensures DoorAfter(door, reports, t).moduleId == door.moduleId
  {
  }

  method OnDatagram(reporter: Reporter, controller: Controller, datagram: string, env: Env, now: int)
    modifies reporter, controller, controller.motor
    ensures reporter.sent ==
            old(reporter.sent) + Response(old(reporter.Abs()), old(controller.Abs()), datagram, env, now)
    ensures match ParseCommand(old(reporter.moduleId), datagram)
            case Ignored => reporter.Abs() == old(reporter.Abs()) && controller.Abs() == old(controller.Abs())
            case Command(_, _, action) =>
              var o := Perform(old(controller.Abs()), action, env);
              controller.Abs() == o.lock && reporter.Abs() == DoorAfter(old(reporter.Abs()), o.reports, now)
  {
    var c := reporter.ReceiveCommand(datagram);
    if c == Ignored {
      return;
    }
    var answer, report := controller.HandleCommand(c.action, env);
    ghost var door := reporter.Abs();
    Tell(reporter, report, now);
    SameSession(door, report, now);
    var _ := reporter.SendFeedback(reporter.moduleId, c.cmdid, c.target, answer);
  }

  /** For every command that reports, with reporting on and a session under way: a
      listener who was up to date before is up to date after the lines sent ahead of the
      FEEDBACK, and after a STATUS it knows the lock as the FEEDBACK states it. */
  lemma {:induction false} ReportPrecedesAnswer(door: Door, lock: Lock, action: string, env: Env, t: int)
    requires door.socketOpen && door.notify && door.prevValid && Perform(lock, action, env).reports != []
    ensures var r := ReadingOf(Perform(lock, action, env).reports[0], t);
            && LearnAll(ViewOf(door.prev), Sends(door, r)) ==
               ViewOf(DoorAfter(door, Perform(lock, action, env).reports, t).prev)
            && (action == "STATUS" ==>
                 (LearnAll(ViewOf(door.prev), Sends(door, r)).locked <==> Answer(lock, action, env) == "STATUS_LOCKED"))
  {
    var reports := Perform(lock, action, env).reports;
    var r := ReadingOf(reports[0], t);
    OneUpdateTells(door, r);
    if action == "STATUS" {
      assert reports == DoorStatus(lock, UNKNOWN, env).reports;
      AnswerAgreesWithReport(lock, env);
      assert reports[0] in reports;
    }
  }

  /** What that listener knows then: the door is open if the closing reading was 10 or more,
      and locked if the motor stands on 2048 to 2059 when the command is done. */
  lemma {:induction false} ReportTells(door: Door, lock: Lock, action: string, env: Env, t: int)
    requires door.socketOpen && door.notify && door.prevValid && Perform(lock, action, env).reports != []
    ensures var o := Perform(lock, action, env);
            LearnAll(ViewOf(door.prev), Sends(door, ReadingOf(o.reports[0], t))) ==
            View(env.reportReading >= 10, 2048 <= o.lock.position <= 2059)
  {
    CommandsReport(lock, action, env);
    OneUpdateTells(door, ReadingOf(Perform(lock, action, env).reports[0], t));
  }
}

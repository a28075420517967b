/** What one launch does about a running instance: the classification of its flags, and the
    forward / claim / retry block of `main`. */
module LaunchRules {
  import opened Wrappers

  datatype LaunchTarget = ToWindow | ToTab | ToInstance
  datatype OpenTarget = Window | Tab
  datatype StartScreen = Fleet | Themes | Settings | Palette | DirPicker | Launcher | Profiles | OtherScreen(name: string)

  /** The flags that decide a launch. */
  datatype LaunchFlags = LaunchFlags(
    probe: bool,
    ownConfig: bool,
    target: Option<LaunchTarget>,
    command: Option<string>,
    profile: Option<string>,
    screen: Option<StartScreen>,
    attach: Option<string>)

  datatype OpenRequest = OpenRequest(
    target: OpenTarget,
    command: Option<string>,
    profile: Option<string>,
    cwd: Option<string>,
    screen: Option<StartScreen>,
    attach: Option<string>,
    activationToken: Option<string>)

  datatype Launch = Launch(forward: Option<OpenRequest>, serve: bool)

  /** What forwarding came to. */
  datatype Verdict = Opened | Refused(why: string) | NoInstance | OtherBuild | NoAnswer

  predicate TabShaped(screen: StartScreen) {
    screen == Settings || screen == Profiles
  }

  function Classify(flags: LaunchFlags, setting: LaunchTarget, cwd: Option<string>, token: Option<string>): (l: Launch)
  {
    if flags.probe || flags.ownConfig then Launch(None, false)
    else
      var target := if flags.target.Some? then flags.target.value else setting;
      if target == ToInstance then Launch(None, true)
      else
        var opens :=
          if target == ToTab && flags.attach.None? && (flags.screen.None? || TabShaped(flags.screen.value)) then Tab
          else Window;
        Launch(Some(OpenRequest(opens, flags.command, flags.profile, cwd, flags.screen, flags.attach, token)),
               flags.profile.None?)
  }

  // ---- the block in main ----

  const RETRIES: nat := 50

  /** What a launch does next, given every verdict it has heard and what became of its claim. */
  datatype Move =
    | Ask
    | TryClaim
    | Open(claimed: bool)
    | Leave(code: nat)

  function Decide(plan: Launch, heard: seq<Verdict>, claim: Option<bool>): (m: Move)
  {
    if plan.forward.None? then
      if plan.serve && claim.None? then TryClaim else Open(claim == Some(true))
    else if heard == [] then Ask
    else
      match heard[|heard| - 1]
      case Opened => Leave(0)
      case Refused(_) => Leave(1)
      case OtherBuild => Open(false)
      case NoAnswer => Open(false)
      case NoInstance =>
        if !plan.serve then Open(false)
        else match claim
          case None => TryClaim
          case Some(true) => Open(true)
          case Some(false) => if |heard| <= RETRIES then Ask else Open(false)
  }

  /** Each forward was made because the ones before it told the launch to ask again. */
  predicate Asked(plan: Launch, heard: seq<Verdict>, claim: Option<bool>)
  {
    forall i :: 0 <= i < |heard| ==>
      Decide(plan, heard[..i], if i == 0 then None else claim) == Ask
  }

  /** A launch that may forward asks once; it asks again only after losing a claim to a race,
      only while nobody answers at all, and at most fifty times. */
  lemma AskedExactly(plan: Launch, heard: seq<Verdict>, claim: Option<bool>)
    ensures Asked(plan, heard, claim) <==>
      && (heard != [] ==> plan.forward.Some?)
      && (|heard| > 1 ==> plan.serve && claim == Some(false))
      && |heard| <= RETRIES + 1
      && (forall i :: 0 <= i < |heard| - 1 ==> heard[i] == NoInstance)
  {
    if Asked(plan, heard, claim) {
      if heard != [] {
        assert Decide(plan, heard[..0], None) == Ask;
      }
      forall i | 0 <= i < |heard| - 1
        ensures heard[i] == NoInstance && plan.serve && claim == Some(false) && i + 1 <= RETRIES
      {
        assert Decide(plan, heard[..i + 1], claim) == Ask;
        assert heard[..i + 1][i] == heard[i];
      }
      if |heard| > 1 {
        assert heard[|heard| - 2] == NoInstance && |heard| - 1 <= RETRIES;
      }
    } else {
      var i :| 0 <= i < |heard| && Decide(plan, heard[..i], if i == 0 then None else claim) != Ask;
      assert i > 0 ==> heard[..i][i - 1] == heard[i - 1];
    }
  }

  /** How the block ends: the process leaves with a code, or goes on to its own event loop. */
  datatype End = End(heard: seq<Verdict>, claim: Option<bool>, move: Move)

  /** The block itself. `answers(n)` is what the n-th forward comes to and `won` whether the
      endpoint is free to claim. */
  method HandOff(plan: Launch, answers: nat -> Verdict, won: bool) returns (end: End)
    ensures Decide(plan, end.heard, end.claim) == end.move && (end.move.Open? || end.move.Leave?)
    ensures Asked(plan, end.heard, end.claim)
    ensures forall i :: 0 <= i < |end.heard| ==> end.heard[i] == answers(i)
    ensures end.claim.Some? ==> end.claim.value == won
    ensures |end.heard| <= RETRIES + 1
  {
    var heard: seq<Verdict> := [];
    var claim: Option<bool> := None;
    if plan.forward.Some? {
      heard := [answers(0)];
      match answers(0) {
        case Opened => return End(heard, claim, Leave(0));
        case Refused(_) => return End(heard, claim, Leave(1));
        case NoInstance =>
          if plan.serve {
            claim := Some(won);
            if !won {
              for retry := 0 to RETRIES
                invariant |heard| == retry + 1 && claim == Some(false)
                invariant forall i :: 0 <= i < |heard| ==> heard[i] == answers(i) == NoInstance
              {
                heard := heard + [answers(retry + 1)];
                match answers(retry + 1) {
                  case Opened =>
                    AskedExactly(plan, heard, claim);
                    return End(heard, claim, Leave(0));
                  case Refused(_) =>
                    AskedExactly(plan, heard, claim);
                    return End(heard, claim, Leave(1));
                  case NoInstance =>
                  case OtherBuild => break;
                  case NoAnswer => break;
                }
              }
            }
          }
        case OtherBuild =>
        case NoAnswer =>
      }
    } else if plan.serve {
      claim := Some(won);
    }
    AskedExactly(plan, heard, claim);
    end := End(heard, claim, Open(claim == Some(true)));
  }

  // ---- what is never forwarded, and never served ----

  /** A request is forwarded as a tab exactly when a tab was asked for and it can be one; a
      process that carries a configuration of its own neither asks nor serves, and one started
      with a profile asks but never serves. */
  lemma ForwardedAsATab(flags: LaunchFlags, setting: LaunchTarget, cwd: Option<string>, token: Option<string>)
    ensures var l := Classify(flags, setting, cwd, token);
      var wanted := if flags.target.Some? then flags.target.value else setting;
      && (l.forward.Some? <==> !flags.probe && !flags.ownConfig && wanted != ToInstance)
      && (l.serve <==> !flags.probe && !flags.ownConfig && (wanted == ToInstance || flags.profile.None?))
      && (l.forward.Some? ==>
            && (l.forward.value.target == Tab <==>
                  wanted == ToTab && flags.attach.None? && flags.screen in {None, Some(Settings), Some(Profiles)})
            && l.forward.value.profile == flags.profile && l.forward.value.command == flags.command)
  {}
}

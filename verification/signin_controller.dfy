/**
 The sign-in screen controller as a pure step function. Its whole state is the
 "resolution in progress" flag; every lifecycle or client callback maps the flag
 to its new value and yields the commands the screen issues in response, in the
 order it issues them.
 */
module SignInController {
  import opened SignInTypes

  /** The controller's state: is a sign-in resolution launched and not yet answered? */
  datatype State = State(isResolving: bool)

  /** The flag starts out false when the screen is created. */
  const Initial: State := State(false)

  /** The outcome of one callback: the new state and the commands issued, in order. */
  datatype Transition = Transition(state: State, commands: seq<Command>)

  /** Did these commands launch a resolution? */
  predicate Launches(cmds: seq<Command>) {
    Count(cmds, IsStartResolution) > 0
  }

  /** An activity result addressed to the sign-in request: the only event that answers a launch. */
  predicate IsSignInResult(e: Event) {
    e.ActivityResult? && e.requestCode == RC_SIGN_IN
  }

  /** Becoming visible asks the client to connect, and nothing else. */
  function OnStart(s: State): (r: Transition)
    ensures r.state == s
    ensures |r.commands| == 1 && Count(r.commands, IsConnect) == 1
  {
    CountSingleton(Connect);
    Transition(s, [Connect])
  }

  /** Becoming invisible asks the client to disconnect, and nothing else. */
  function OnStop(s: State): (r: Transition)
    ensures r.state == s
    ensures |r.commands| == 1 && Count(r.commands, IsDisconnect) == 1
  {
    CountSingleton(Disconnect);
    Transition(s, [Disconnect])
  }

  /** The avatar load, present exactly when the profile has a picture. */
  function AvatarLoad(p: Person): (cmds: seq<Command>)
    ensures |cmds| <= 1
  {
    match p.imageUrl
    case Some(url) => [LoadAvatar(url)]
    case None => []
  }

  /** The cover load, present exactly when the profile has a cover photo. */
  function CoverLoad(p: Person): (cmds: seq<Command>)
    ensures |cmds| <= 1
  {
    match p.coverUrl
    case Some(url) => [LoadCover(url)]
    case None => []
  }

  /** The commands issued for a present profile, in the order the screen issues them. */
  function ProfileCommands(p: Person, accountName: string): seq<Command> {
    [SetName(p.displayName), SetEmail(accountName)] + AvatarLoad(p) + CoverLoad(p)
  }

  /** How many of a profile's commands satisfy `q`: one for each that does. */
  lemma ProfileCount(p: Person, accountName: string, q: Command -> bool)
    ensures Count(ProfileCommands(p, accountName), q) ==
      (if q(SetName(p.displayName)) then 1 else 0)
      + (if q(SetEmail(accountName)) then 1 else 0)
      + (if p.imageUrl.Some? && q(LoadAvatar(p.imageUrl.value)) then 1 else 0)
      + (if p.coverUrl.Some? && q(LoadCover(p.coverUrl.value)) then 1 else 0)
  {
    var fields := [SetName(p.displayName), SetEmail(accountName)];
    assert fields == [SetName(p.displayName)] + [SetEmail(accountName)];
    CountAppend([SetName(p.displayName)], [SetEmail(accountName)], q);
    CountSingleton(SetName(p.displayName));
    CountSingleton(SetEmail(accountName));
    CountAppend(fields, AvatarLoad(p), q);
    CountAppend(fields + AvatarLoad(p), CoverLoad(p), q);
    if p.imageUrl.Some? {
      CountSingleton(LoadAvatar(p.imageUrl.value));
    }
    if p.coverUrl.Some? {
      CountSingleton(LoadCover(p.coverUrl.value));
    }
  }

  /**
   Fills the profile fields once connected. A missing profile is silently ignored;
   otherwise name and email are set and each picture the profile has is loaded.
   Nothing but the displayed fields is touched.
   */
  function SetUserDetails(person: Option<Person>, accountName: string): (cmds: seq<Command>)
    ensures person.None? ==> cmds == []
    ensures forall i :: 0 <= i < |cmds| ==> IsDisplayUpdate(cmds[i])
  {
    match person
    case None => []
    case Some(p) => ProfileCommands(p, accountName)
  }

  /**
   What filling in a present profile issues: exactly one name and one email update
   carrying the profile's name and the account name, one avatar load exactly when
   the profile has a picture and one cover load exactly when it has a cover photo.
   */
  lemma SetUserDetailsCounts(person: Option<Person>, accountName: string)
    ensures var cmds := SetUserDetails(person, accountName);
      person.Some? ==>
      && Count(cmds, IsSetName) == 1 && SetName(person.value.displayName) in cmds
      && Count(cmds, IsSetEmail) == 1 && SetEmail(accountName) in cmds
      && (person.value.imageUrl.Some? ==>
            Count(cmds, IsLoadAvatar) == 1 && LoadAvatar(person.value.imageUrl.value) in cmds)
      && (person.value.imageUrl.None? ==> Count(cmds, IsLoadAvatar) == 0)
      && (person.value.coverUrl.Some? ==>
            Count(cmds, IsLoadCover) == 1 && LoadCover(person.value.coverUrl.value) in cmds)
      && (person.value.coverUrl.None? ==> Count(cmds, IsLoadCover) == 0)
  {
    if person.Some? {
      ProfileCount(person.value, accountName, IsSetName);
      ProfileCount(person.value, accountName, IsSetEmail);
      ProfileCount(person.value, accountName, IsLoadAvatar);
      ProfileCount(person.value, accountName, IsLoadCover);
    }
  }

  /**
   A successful connection only fills in the profile, and the flag is untouched. A
   missing profile issues nothing. A present one gets exactly one name and one email
   update, and one load per picture it has. No client request and no toast is issued.
   */
  function OnConnected(s: State, person: Option<Person>, accountName: string): (r: Transition)
    ensures r.state == s
    ensures person.None? ==> r.commands == []
    ensures forall i :: 0 <= i < |r.commands| ==> IsDisplayUpdate(r.commands[i])
    ensures Count(r.commands, IsConnect) == 0 && Count(r.commands, IsDisconnect) == 0
    ensures Count(r.commands, IsStartResolution) == 0 && Count(r.commands, IsToast) == 0
    ensures person.Some? ==>
      && Count(r.commands, IsSetName) == 1 && SetName(person.value.displayName) in r.commands
      && Count(r.commands, IsSetEmail) == 1 && SetEmail(accountName) in r.commands
    ensures person.Some? && person.value.imageUrl.Some? ==>
      Count(r.commands, IsLoadAvatar) == 1 && LoadAvatar(person.value.imageUrl.value) in r.commands
    ensures person.None? || person.value.imageUrl.None? ==> Count(r.commands, IsLoadAvatar) == 0
    ensures person.Some? && person.value.coverUrl.Some? ==>
      Count(r.commands, IsLoadCover) == 1 && LoadCover(person.value.coverUrl.value) in r.commands
    ensures person.None? || person.value.coverUrl.None? ==> Count(r.commands, IsLoadCover) == 0
  {
    var cmds := SetUserDetails(person, accountName);
    SetUserDetailsCounts(person, accountName);
    DisplayUpdatesOnly(cmds);
    Transition(s, cmds)
  }

  /** A suspended connection is left to the client to re-establish: nothing happens. */
  function OnConnectionSuspended(s: State, cause: int): (r: Transition)
    ensures r.state == s && |r.commands| == 0
  {
    Transition(s, [])
  }

  /**
   A failed connection. When no resolution is pending and the failure has one, the
   resolution is launched with RC_SIGN_IN and the flag raised; if the launch throws,
   the flag is reset and the client asked to connect again. In every other case,
   a pending resolution included, the user gets a toast and the flag is kept.
   */
  function OnConnectionFailed(s: State, result: ConnectionResult): (r: Transition)
    ensures |r.commands| == 1
    ensures !s.isResolving && result.hasResolution && !result.launchThrows ==>
      && r.state.isResolving
      && Count(r.commands, IsStartResolution) == 1 && StartResolution(RC_SIGN_IN) in r.commands
      && Count(r.commands, IsConnect) == 0 && Count(r.commands, IsToast) == 0
    ensures !s.isResolving && result.hasResolution && result.launchThrows ==>
      && !r.state.isResolving
      && Count(r.commands, IsConnect) == 1
      && Count(r.commands, IsStartResolution) == 0 && Count(r.commands, IsToast) == 0
    ensures s.isResolving || !result.hasResolution ==>
      && r.state == s
      && Count(r.commands, IsToast) == 1
      && Count(r.commands, IsStartResolution) == 0 && Count(r.commands, IsConnect) == 0
  {
    if !s.isResolving && result.hasResolution then
      if result.launchThrows then
        CountSingleton(Connect);
        Transition(State(false), [Connect])
      else
        CountSingleton(StartResolution(RC_SIGN_IN));
        Transition(State(true), [StartResolution(RC_SIGN_IN)])
    else
      var toast := ShowToast(UnresolvableFailureText + result.description);
      CountSingleton(toast);
      Transition(s, [toast])
  }

  /**
   The answer of a launched activity. Results for other request codes are ignored.
   The sign-in result always clears the flag; success reconnects, anything else
   shows a toast.
   */
  function OnActivityResult(s: State, requestCode: int, resultCode: int): (r: Transition)
    ensures requestCode != RC_SIGN_IN ==> r.state == s && |r.commands| == 0
    ensures requestCode == RC_SIGN_IN ==> !r.state.isResolving && |r.commands| == 1
    ensures requestCode == RC_SIGN_IN ==>
      (Count(r.commands, IsConnect) > 0 <==> resultCode == RESULT_OK)
    ensures requestCode == RC_SIGN_IN && resultCode == RESULT_OK ==>
      Count(r.commands, IsConnect) == 1 && Count(r.commands, IsToast) == 0
    ensures requestCode == RC_SIGN_IN && resultCode != RESULT_OK ==>
      Count(r.commands, IsToast) == 1 && Count(r.commands, IsConnect) == 0
  {
    if requestCode == RC_SIGN_IN then
      if resultCode == RESULT_OK then
        CountSingleton(Connect);
        Transition(State(false), [Connect])
      else
        CountSingleton(ShowToast(ResolutionFailedText));
        Transition(State(false), [ShowToast(ResolutionFailedText)])
    else
      Transition(s, [])
  }

  /**
   One step of the controller: the flag is up afterwards exactly when it was up and
   the event is not the sign-in result, or this step launched a resolution; and a
   resolution is launched only while none is pending, once, with RC_SIGN_IN.
   */
  function Step(s: State, e: Event): (r: Transition)
    ensures r.state.isResolving <==> (s.isResolving && !IsSignInResult(e)) || Launches(r.commands)
    ensures Launches(r.commands) ==> !s.isResolving
    ensures Count(r.commands, IsStartResolution) <= 1
    ensures forall i :: 0 <= i < |r.commands| && r.commands[i].StartResolution? ==>
      r.commands[i].requestCode == RC_SIGN_IN
  {
    match e
    case Started => OnStart(s)
    case Stopped => OnStop(s)
    case Connected(person, accountName) => OnConnected(s, person, accountName)
    case Suspended(cause) => OnConnectionSuspended(s, cause)
    case ConnectionFailed(result) => OnConnectionFailed(s, result)
    case ActivityResult(requestCode, resultCode) => OnActivityResult(s, requestCode, resultCode)
  }

  /**
   Which events make the screen ask the client to connect or disconnect, and which
   show the user a toast.
   */
  lemma StepRequests(s: State, e: Event)
    ensures var cmds := Step(s, e).commands;
      Count(cmds, IsConnect) > 0 <==>
        || e.Started?
        || (e.ConnectionFailed? && !s.isResolving && e.result.hasResolution && e.result.launchThrows)
        || (IsSignInResult(e) && e.resultCode == RESULT_OK)
    ensures var cmds := Step(s, e).commands;
      Count(cmds, IsToast) > 0 <==>
        || (e.ConnectionFailed? && (s.isResolving || !e.result.hasResolution))
        || (IsSignInResult(e) && e.resultCode != RESULT_OK)
    ensures Count(Step(s, e).commands, IsDisconnect) > 0 <==> e.Stopped?
  {
    match e
    case Started =>
    case Stopped =>
    case Connected(person, accountName) =>
    case Suspended(cause) =>
    case ConnectionFailed(result) =>
      var cmds := OnConnectionFailed(s, result).commands;
      assert Count(cmds, IsDisconnect) == 0 by {
        assert |cmds| == 1 && !IsDisconnect(cmds[0]);
      }
    case ActivityResult(requestCode, resultCode) =>
      var cmds := OnActivityResult(s, requestCode, resultCode).commands;
      assert Count(cmds, IsDisconnect) == 0 by {
        assert forall i :: 0 <= i < |cmds| ==> !IsDisconnect(cmds[i]);
      }
  }
}

/**
 The vocabulary of the sign-in screen: the inputs its callbacks branch on (events)
 and the requests it makes of its collaborators (commands). The identity client,
 the image loader and the toast facility are opaque: the screen only emits
 commands to them, and URLs and messages are uninterpreted strings.
 */
module SignInTypes {

  /** A value that the platform may hand over as null. */
  datatype Option<+T> = None | Some(value: T)

  /** Request code passed when the sign-in resolution is launched (RC_SIGN_IN). */
  const RC_SIGN_IN: int := 123

  /** The platform's "result OK" activity result code. No property depends on its value. */
  const RESULT_OK: int := -1

  /** Toast text prefix shown when a connection failure cannot be resolved. */
  const UnresolvableFailureText: string := "Could not resolve result: "

  /** Toast text shown when the resolution flow came back without success. */
  const ResolutionFailedText: string := "Could not resolve"

  /** The signed-in profile: display name, and the URLs of the profile picture and
      of the cover photo when the profile has them. */
  datatype Person = Person(displayName: string, imageUrl: Option<string>, coverUrl: Option<string>)

  /** What the screen learns from a failed connection attempt: whether the failure
      carries an interactive resolution, whether launching that resolution throws,
      and the result's textual form (used only in the toast). */
  datatype ConnectionResult = ConnectionResult(hasResolution: bool, launchThrows: bool, description: string)

  /** Lifecycle and client callbacks delivered to the screen. */
  datatype Event =
    | Started
    | Stopped
    | Connected(person: Option<Person>, accountName: string)
    | Suspended(cause: int)
    | ConnectionFailed(result: ConnectionResult)
    | ActivityResult(requestCode: int, resultCode: int)

  /** Requests the screen makes of its collaborators. A StartResolution stands for a
      resolution launch that went through. */
  datatype Command =
    | Connect
    | Disconnect
    | StartResolution(requestCode: int)
    | ShowToast(message: string)
    | SetName(text: string)
    | SetEmail(text: string)
    | LoadAvatar(url: string)
    | LoadCover(url: string)

  predicate IsConnect(c: Command) { c.Connect? }
  predicate IsDisconnect(c: Command) { c.Disconnect? }
  predicate IsStartResolution(c: Command) { c.StartResolution? }
  predicate IsToast(c: Command) { c.ShowToast? }
  predicate IsSetName(c: Command) { c.SetName? }
  predicate IsSetEmail(c: Command) { c.SetEmail? }
  predicate IsLoadAvatar(c: Command) { c.LoadAvatar? }
  predicate IsLoadCover(c: Command) { c.LoadCover? }

  /** Commands that only touch what the screen displays. */
  predicate IsDisplayUpdate(c: Command) {
    c.SetName? || c.SetEmail? || c.LoadAvatar? || c.LoadCover?
  }

  /** The number of commands in `cmds` that satisfy `p`. */
  function Count(cmds: seq<Command>, p: Command -> bool): (n: nat)
    ensures n <= |cmds|
  {
    if |cmds| == 0 then 0
    else (if p(cmds[0]) then 1 else 0) + Count(cmds[1..], p)
  }

  /** No command is counted exactly when none satisfies `p`. */
  lemma {:induction false} CountZero(cmds: seq<Command>, p: Command -> bool)
    ensures Count(cmds, p) == 0 <==> forall i :: 0 <= i < |cmds| ==> !p(cmds[i])
    decreases |cmds|
  {
    if |cmds| > 0 {
      CountZero(cmds[1..], p);
      assert forall i :: 1 <= i < |cmds| ==> cmds[1..][i - 1] == cmds[i];
    }
  }

  /** Counting distributes over concatenation. */
  lemma {:induction false} CountAppend(a: seq<Command>, b: seq<Command>, p: Command -> bool)
    ensures Count(a + b, p) == Count(a, p) + Count(b, p)
    decreases |a|
  {
    if |a| == 0 {
      assert a + b == b;
    } else {
      assert (a + b)[1..] == a[1..] + b;
      CountAppend(a[1..], b, p);
    }
  }

  /** A single command is counted exactly when it satisfies `p`. */
  lemma CountSingleton(c: Command)
    ensures forall p :: Count([c], p) == if p(c) then 1 else 0
  {
  }

  /** Commands that only update the display contain no client request and no toast. */
  lemma DisplayUpdatesOnly(cmds: seq<Command>)
    requires forall i :: 0 <= i < |cmds| ==> IsDisplayUpdate(cmds[i])
    ensures Count(cmds, IsConnect) == 0 && Count(cmds, IsDisconnect) == 0
    ensures Count(cmds, IsStartResolution) == 0 && Count(cmds, IsToast) == 0
  {
  }
}

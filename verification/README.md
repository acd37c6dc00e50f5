# Sign-in screen controller, modelled in Dafny

The repository is one Android screen (`MainActivity`). It signs the user in
through the Google Play services client and shows the resulting Google+ profile:
name, email, avatar and cover photo. The screen holds only one piece of logic. It
is a callback-driven controller whose whole state is the boolean `mIsResolving`:
"a sign-in resolution has been launched and has not been answered yet".

This project models that controller as a pure step function
`Step(state, event) -> Transition(state', commands)`:

- `signin_types.dfy` (module `SignInTypes`) defines the vocabulary. It holds the
  constants `RC_SIGN_IN = 123` and `RESULT_OK`. It defines the profile (`Person`:
  display name, optional picture URL, optional cover-photo URL) and the failed
  connection result (`ConnectionResult`: has a resolution, whether launching it
  throws, its text). It defines the callbacks as an `Event` datatype and the
  requests to collaborators as a `Command` datatype: connect, disconnect, start
  resolution, toast, set name, set email, load avatar, load cover. `Count` counts
  the commands that satisfy a predicate. The contracts say "exactly one" through it.
- `signin_controller.dfy` (module `SignInController`) has one function per
  callback of the source: `OnStart`, `OnStop`, `OnConnected` with
  `SetUserDetails`, `OnConnectionSuspended`, `OnConnectionFailed` and
  `OnActivityResult`. `Step` dispatches an event to them. Each handler's contract
  states what it issues as counts of each kind of command, and what happens to the
  flag. `SetUserDetails` itself only promises display updates; its counts are in
  the lemma `SetUserDetailsCounts`, which `OnConnected`'s contract relies on.
- `signin_trace.dfy` (module `SignInTrace`) runs the controller over a sequence of
  events. It proves that the flag is up exactly when a resolution is outstanding.
  It proves that two launches are always separated by a sign-in result. It also
  proves the resolved-failure scenario end to end.

The identity client, the image loader and the toast facility are opaque. The
controller only emits commands to them. URLs, messages and names are
uninterpreted strings. A `StartResolution` command stands for a resolution launch
that went through. When the launch throws, the only command is the retry
`Connect`.

## Model

| member | source | states |
|---|---|---|
| SignInController.OnStart | app/src/main/java/dusan/malic/blogger/integrating/g/plus/MainActivity.java:46-51 | Becoming visible issues exactly one command, a Connect, and leaves the resolving flag as it was. |
| SignInController.OnStop | app/src/main/java/dusan/malic/blogger/integrating/g/plus/MainActivity.java:53-58 | Becoming invisible issues exactly one command, a Disconnect, and leaves the resolving flag as it was. |
| SignInController.SetUserDetails | app/src/main/java/dusan/malic/blogger/integrating/g/plus/MainActivity.java:72-100 | A missing profile issues nothing. Whatever is issued only updates displayed fields: name, email, avatar, cover. |
| SignInController.SetUserDetailsCounts | app/src/main/java/dusan/malic/blogger/integrating/g/plus/MainActivity.java:80-99 | For a present profile: exactly one SetName with the display name and exactly one SetEmail with the account name. One avatar load with the picture URL iff the profile has a picture, one cover load with the cover URL iff it has a cover. |
| SignInController.OnConnected | app/src/main/java/dusan/malic/blogger/integrating/g/plus/MainActivity.java:60-68 | A connection leaves the resolving flag unchanged and issues only display updates: no Connect, Disconnect, StartResolution or toast. A missing profile issues nothing. A present one issues exactly one SetName with the display name and exactly one SetEmail with the account name, one avatar load iff it has a picture, and one cover load iff it has a cover. |
| SignInController.OnConnectionSuspended | app/src/main/java/dusan/malic/blogger/integrating/g/plus/MainActivity.java:102-108 | A suspension changes no state and issues no command; reconnecting is left to the client. |
| SignInController.OnConnectionFailed | app/src/main/java/dusan/malic/blogger/integrating/g/plus/MainActivity.java:116-144 | Each failure issues one command. No resolution pending, failure has one, launch goes through: exactly one StartResolution(123), flag set, no Connect, no toast. Launch throws: flag down, exactly one Connect, no toast, no StartResolution. Flag already up or no resolution: exactly one toast, no StartResolution, no Connect, flag unchanged. |
| SignInController.OnActivityResult | app/src/main/java/dusan/malic/blogger/integrating/g/plus/MainActivity.java:146-167 | A result for another request code changes nothing and issues nothing. The RC_SIGN_IN result always clears the flag. It issues a Connect iff the result code is RESULT_OK; otherwise it issues exactly one toast and no Connect. |
| SignInController.Step | app/src/main/java/dusan/malic/blogger/integrating/g/plus/MainActivity.java:113-154 | After any event the flag is up iff it was up and the event is not the sign-in result, or the event launched a resolution. No launch happens while the flag is up, at most one happens per event, and every launch uses RC_SIGN_IN. |
| SignInController.StepRequests | app/src/main/java/dusan/malic/blogger/integrating/g/plus/MainActivity.java:46-167 | A Connect is issued iff the event is onStart, a failure whose launch throws, or a successful sign-in result. A toast is issued iff the event is a failure that cannot be resolved now, or an unsuccessful sign-in result. A Disconnect is issued iff the event is onStop. |
| SignInTrace.FlagIffOutstanding | app/src/main/java/dusan/malic/blogger/integrating/g/plus/MainActivity.java:113-154 | After any sequence of events, the flag is up iff some step launched a resolution and no sign-in result came after it. This includes a resolution already pending at the start that was never answered. |
| SignInTrace.NoSecondLaunchBeforeAnswer | app/src/main/java/dusan/malic/blogger/integrating/g/plus/MainActivity.java:122-128 | Between any two resolution launches in a run there is a sign-in result, so at most one resolution is in flight at a time. |
| SignInTrace.ResolvedFailureReconnects | app/src/main/java/dusan/malic/blogger/integrating/g/plus/MainActivity.java:116-158 | With no resolution pending: onStart, a recoverable failure whose launch goes through, then a successful sign-in result. This issues Connect, StartResolution(123), Connect, and ends with the flag down. |
| SignInTrace.ResolvedSignInScenario | app/src/main/java/dusan/malic/blogger/integrating/g/plus/MainActivity.java:61-99 | The same run, then onConnected with a profile that has no picture and no cover. This last step issues only SetName and SetEmail and no image load. |

## Left out

- Client construction in `onCreate`, with its API and scopes (MainActivity.java:30-44), is left out. It is configuration of the foreign Play services client. The initial flag value `false` (line 114) is `Initial`.
- The internals of connect, disconnect and the client's automatic reconnection after a suspension are left out. They are opaque SDK behaviour, modelled only as emitted commands.
- `super.*` calls, `setContentView`, `findViewById` and the view casts are left out. They are Android framework plumbing.
- `Log` output, the `Bundle` passed to `onConnected` and the `Intent` passed to `onActivityResult` are left out. The code only logs them and never branches on them. The suspension cause is carried by `Suspended` and `OnConnectionSuspended` but never branched on, as in the code.
- Picasso image loading and toast display are opaque commands. The toast text for a failure is the fixed prefix followed by the result's text, which is uninterpreted here.
- `RESULT_OK` carries the platform's value -1. No property depends on that value.
- Callbacks arriving asynchronously, including those after `disconnect`, are left out. That is concurrency; the model delivers events one at a time, as the single UI thread does.
- A null display name or account name is not modelled. Both are plain strings, and `SetUserDetails` always sets both fields, as the code does. A missing email therefore still issues `SetEmail`; the code sets the field unconditionally.
- A cover without a cover photo is not modelled. The code calls `getCover().getCoverPhoto().getUrl()` without checking `getCoverPhoto()` for null (line 97). The model treats a present cover as carrying its photo URL, so that crash path is absent.
- The five-state connection enumeration (disconnected, connecting, connected, suspended, resolving) is not modelled. The code keeps only the boolean flag, and the model follows the code.

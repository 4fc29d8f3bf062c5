/**
  The main loop, rendering and terminal handling aside: each iteration hands
  the pending key event, if there is one, to the router, then lets the timer
  tick, and the loop stops once the application is quitting.
 */
module EventLoop {
  import opened Optional
  import opened Persistence
  import opened AppLogic
  import opened Event

  datatype KeyEvent = KeyEvent(kind: KeyEventKind, code: KeyCode, modifiers: KeyModifiers)

  /** What one iteration reads from the outside: the clocks, and the key event the poll returned, if any. */
  datatype Input = Input(clock: Clock, event: Option<KeyEvent>)

  /** One iteration of the loop. */
  function Iterate(app: App, fs: Store, input: Input): (r: Step)
    requires Valid(app)
    ensures Valid(r.app)
    ensures app.state.Quitting? ==> r == Step(app, fs)
  {
    var handled := match input.event
      case Some(e) => HandleEvent(app, fs, input.clock, e.kind, e.code, e.modifiers)
      case None => Step(app, fs);
    Update(handled.app, handled.fs, input.clock)
  }

  /** An iteration writes at most one file, the one named after the current
      minute: a session ended by `Esc` has left the writing state before the
      tick could end it a second time. */
  lemma IterateWritesOneFile(app: App, fs: Store, input: Input)
    requires Valid(app)
    ensures var r := Iterate(app, fs, input);
            var name := SessionFileName(input.clock.local);
            r.fs == fs || (name in r.fs && r.fs == fs[name := r.fs[name]])
  {
    var name := SessionFileName(input.clock.local);
    var handled: Step;
    if input.event.Some? {
      var e := input.event.value;
      handled := HandleEvent(app, fs, input.clock, e.kind, e.code, e.modifiers);
    } else {
      handled := Step(app, fs);
    }
    assert Iterate(app, fs, input) == Update(handled.app, handled.fs, input.clock);
    var r := Update(handled.app, handled.fs, input.clock);
    AtMostOneName(fs, handled.fs, r.fs, name, app.text, handled.app.text);
  }

  lemma AtMostOneName(fs: Store, middle: Store, last: Store, name: string, first: string, second: string)
    requires middle == fs || middle == fs[name := first]
    requires last == middle || last == middle[name := second]
    ensures last == fs || (name in last && last == fs[name := last[name]])
  {
    if last != fs && last == middle[name := second] && middle == fs[name := first] {
      assert last == fs[name := second];
    }
  }

  /** The loop over a sequence of inputs, stopping at the first iteration that leaves the application quitting. */
  function Run(app: App, fs: Store, inputs: seq<Input>): (r: Step)
    requires Valid(app)
    ensures Valid(r.app)
    ensures fs.Keys <= r.fs.Keys
    decreases |inputs|
  {
    if |inputs| == 0 || app.state.Quitting? then Step(app, fs)
    else
      var next := Iterate(app, fs, inputs[0]);
      Run(next.app, next.fs, inputs[1..])
  }

  /** Saved sessions are never lost: a file present before the loop is still there
      afterwards, and keeps its contents unless a later save in the same minute replaced it. */
  lemma {:induction false} RunKeepsFiles(app: App, fs: Store, inputs: seq<Input>, name: string)
    requires Valid(app) && name in fs
    requires forall i :: 0 <= i < |inputs| ==> SessionFileName(inputs[i].clock.local) != name
    ensures name in Run(app, fs, inputs).fs && Run(app, fs, inputs).fs[name] == fs[name]
    decreases |inputs|
  {
    if |inputs| > 0 && !app.state.Quitting? {
      var next := Iterate(app, fs, inputs[0]);
      RunKeepsFiles(next.app, next.fs, inputs[1..], name);
    }
  }
}

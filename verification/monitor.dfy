/** The EDC monitor as an append-only sequence of (level, message) events. */
module Monitor {

  /** The three levels the seed extension logs at. */
  datatype Level = Debug | Info | Warning

  datatype LogEvent = LogEvent(level: Level, message: string)

  type Log = seq<LogEvent>

  /** The messages logged at level `lvl`, in the order they were logged. */
  function Messages(log: Log, lvl: Level): (ms: seq<string>)
    ensures |ms| <= |log|
    ensures forall m :: m in ms <==> LogEvent(lvl, m) in log
  {
    if log == [] then
      []
    else
      assert log == [log[0]] + log[1..];
      (if log[0].level == lvl then [log[0].message] else []) + Messages(log[1..], lvl)
  }

  /** Filtering by level distributes over appending logs. */
  lemma {:induction false} MessagesAppend(a: Log, b: Log, lvl: Level)
    ensures Messages(a + b, lvl) == Messages(a, lvl) + Messages(b, lvl)
  {
    if a == [] {
      assert a + b == b;
    } else {
      var head := if a[0].level == lvl then [a[0].message] else [];
      assert (a + b)[0] == a[0];
      assert (a + b)[1..] == a[1..] + b;
      calc {
        Messages(a + b, lvl);
        head + Messages(a[1..] + b, lvl);
        { MessagesAppend(a[1..], b, lvl); }
        head + (Messages(a[1..], lvl) + Messages(b, lvl));
        (head + Messages(a[1..], lvl)) + Messages(b, lvl);
        Messages(a, lvl) + Messages(b, lvl);
      }
    }
  }
}

/**
 * The rendering progress logger: moviepy reports each progress-bar update to
 * `bars_callback`, which turns it into a whole percentage of the bar's total
 * and hands that, with a "Rendering: N%" message, to the caller's callback.
 */
module Progress {
  import opened Wrappers
  import Decimal

  /** One call `callback(percentage, message)`. */
  datatype Report = Report(percentage: int, message: string)

  /** The caller's callback, standing for the calls it has received. */
  class Sink {
    var received: seq<Report>

    constructor ()
      ensures received == []
    {
      received := [];
    }

    method Receive(report: Report)
      modifies this
      ensures received == old(received) + [report]
    {
      received := received + [report];
    }
  }

  /** Python's `int(x)` on a number: truncation toward zero. */
  function Trunc(x: real): (t: int)
    ensures 0.0 <= x ==> t as real <= x < t as real + 1.0
    ensures x < 0.0 ==> t as real - 1.0 < x <= t as real
  {
    if x >= 0.0 then x.Floor else -((-x).Floor)
  }

  /** `int((current / total) * 100)`. */
  function Percentage(value: real, total: real): int
    requires total > 0.0
  {
    Trunc(value / total * 100.0)
  }

  /**
   * The percentage is the whole part of the share of the bar done: between 0
   * and 100 while the value lies within the bar, at least 100 past its end,
   * at most 0 before its start.
   */
  lemma PercentageBounds(value: real, total: real)
    requires total > 0.0
    ensures var p := Percentage(value, total);
      && (0.0 <= value ==> p as real <= value / total * 100.0 < p as real + 1.0)
      && (0.0 <= value <= total ==> 0 <= p <= 100)
      && (value >= total ==> p >= 100)
      && (value < 0.0 ==> p <= 0)
  {
    var x := value / total * 100.0;
    assert x * total == value * 100.0;
    ShareBounds(x, value, total);
  }

  /** Where a share x with x * total == value * 100 lies, by the value's place in the bar. */
  lemma ShareBounds(x: real, value: real, total: real)
    requires total > 0.0 && x * total == value * 100.0
    ensures 0.0 <= value <==> 0.0 <= x
    ensures value <= total ==> x <= 100.0
    ensures value >= total ==> x >= 100.0
  {
    if 0.0 <= value && x < 0.0 {
      ScaleStrict(x, 0.0, total);
    }
    if value < 0.0 && x >= 0.0 {
      ScaleWeak(0.0, x, total);
    }
    if value <= total && x > 100.0 {
      ScaleStrict(100.0, x, total);
    }
    if value >= total && x < 100.0 {
      ScaleStrict(x, 100.0, total);
    }
  }

  lemma ScaleStrict(a: real, b: real, c: real)
    requires a < b && c > 0.0
    ensures a * c < b * c
  {
  }

  lemma ScaleWeak(a: real, b: real, c: real)
    requires a <= b && c > 0.0
    ensures a * c <= b * c
  {
  }

  /** The message sent with a percentage. */
  function Message(p: int): string
  {
    "Rendering: " + Decimal.IntToString(p) + "%"
  }

  const MessagePrefix: string := "Rendering: "

  /** Reads the percentage back out of a message. */
  function PercentOf(m: string): Option<int>
  {
    if |m| >= |MessagePrefix| + 1 && m[..|MessagePrefix|] == MessagePrefix && m[|m| - 1] == '%'
    then Decimal.ParseInt(m[|MessagePrefix|..|m| - 1])
    else None
  }

  /** The message carries its percentage: it can be read back exactly. */
  lemma MessageRoundTrip(p: int)
    ensures PercentOf(Message(p)) == Some(p)
  {
    var m := Message(p);
    var digits := Decimal.IntToString(p);
    assert m == MessagePrefix + digits + "%";
    assert m[..|MessagePrefix|] == MessagePrefix;
    assert m[|MessagePrefix|..|m| - 1] == digits;
    Decimal.IntToStringRoundTrip(p);
  }

  /** Two different percentages never produce the same message. */
  lemma MessageInjective(p: int, q: int)
    requires Message(p) == Message(q)
    ensures p == q
  {
    MessageRoundTrip(p);
    MessageRoundTrip(q);
  }

  class ProgressLogger {
    /** The caller's callback, or none. */
    var callback: Sink?
    var lastMessage: string
    /** proglog's bar state: the total of each registered bar. */
    var bars: map<string, real>

    constructor (callback: Sink?)
      ensures this.callback == callback && lastMessage == "" && bars == map[]
    {
      this.callback := callback;
      lastMessage := "";
      bars := map[];
    }

    /** proglog registering a bar together with its total. */
    method SetTotal(bar: string, total: real)
      modifies this
      ensures callback == old(callback) && lastMessage == old(lastMessage)
      ensures bars == old(bars)[bar := total]
    {
      bars := bars[bar := total];
    }

    /** An update of `bar` reaches the callback. */
    predicate Reports(bar: string)
      reads this
    {
      callback != null && bar in bars && bars[bar] > 0.0
    }

    /**
     * `bars_callback`: with a callback present and the bar known with a
     * positive total, the callback receives the percentage and its message;
     * otherwise nothing happens. The logger's own state never changes.
     */
    method BarsCallback(bar: string, attr: string, value: real, oldValue: Option<real>)
      modifies callback
      ensures Reports(bar) ==>
        var p := Percentage(value, bars[bar]);
        callback.received == old(callback.received) + [Report(p, Message(p))]
      ensures !Reports(bar) && callback != null ==> callback.received == old(callback.received)
    {
      if callback != null {
        if bar in bars && bars[bar] > 0.0 {
          var p := Percentage(value, bars[bar]);
          callback.Receive(Report(p, Message(p)));
        }
      }
    }

    /** `callback_trait`: ignores every change. */
    method CallbackTrait(changes: map<string, real>)
      ensures unchanged(this)
      ensures callback != null ==> unchanged(callback)
    {
    }

    /** `log`: generic messages are silenced, never forwarded. */
    method Log(message: string)
      ensures unchanged(this)
      ensures callback != null ==> unchanged(callback)
    {
    }
  }
}

/** The pump notifier: a debounced switch that tells the ESP32 board driving
    the pump to turn it on or off, sending a request only when the requested
    state differs from the one last decided on. */
module Pump {

  datatype Option<T> = None | Some(value: T)

  /** Base address of the ESP32 board (a per-deployment constant). */
  const Esp32Ip: string := "http://192.168.1.100"

  /** The URL requested for the desired pump state. */
  function PumpUrl(on: bool): (url: string)
    ensures |url| > |Esp32Ip| && url[..|Esp32Ip|] == Esp32Ip
    ensures url[|Esp32Ip|..] == if on then "/pump/on" else "/pump/off"
  {
    var path := "/pump/" + (if on then "on" else "off");
    assert (Esp32Ip + path)[|Esp32Ip|..] == path;
    Esp32Ip + path
  }

  /** The inverse of PumpUrl: the pump state that a URL of the
      `/pump/on` / `/pump/off` format encodes, if any. */
  function PumpStateOf(url: string): (r: Option<bool>)
    ensures r.Some? ==> url == PumpUrl(r.value)
  {
    var n := |Esp32Ip|;
    if |url| < n || url[..n] != Esp32Ip then None
    else
      assert url == url[..n] + url[n..];
      if url[n..] == "/pump/on" then Some(true)
      else if url[n..] == "/pump/off" then Some(false)
      else None
  }

  /** Every URL the notifier builds encodes the state it was built for;
      with PumpStateOf's contract, PumpUrl is a bijection onto the URLs of
      the `/pump/on` / `/pump/off` format. */
  lemma UrlRoundTrip(on: bool)
    ensures PumpStateOf(PumpUrl(on)) == Some(on)
  {
    var url := PumpUrl(on);
    assert url[..|Esp32Ip|] == Esp32Ip;
  }

  /** Two different pump states are never requested with the same URL. */
  lemma PumpUrlInjective(a: bool, b: bool)
    ensures PumpUrl(a) == PumpUrl(b) <==> a == b
  {
    UrlRoundTrip(a);
    UrlRoundTrip(b);
  }

  /** The value of `lastState` after the given arguments were passed, in
      order, to SendPumpSignal, starting from `null`. */
  function StateAfter(calls: seq<bool>): Option<bool>
  {
    if calls == [] then None else Some(calls[|calls| - 1])
  }

  /** The URLs requested, in order, by SendPumpSignal called with the given
      arguments, starting from `lastState == null`: a call sends a request
      exactly when its argument differs from the state left by the calls
      before it. */
  function Requests(calls: seq<bool>): seq<string>
  {
    if calls == [] then []
    else
      var before := calls[..|calls| - 1];
      var on := calls[|calls| - 1];
      Requests(before) + (if StateAfter(before) == Some(on) then [] else [PumpUrl(on)])
  }

  /** Call `i` of the sequence changes the state: it is the first call, or
      its argument differs from the previous one. */
  predicate ChangedAt(calls: seq<bool>, i: nat)
    requires i < |calls|
  {
    i == 0 || calls[i - 1] != calls[i]
  }

  /** The number of state changes among the first `n` calls. */
  function ChangeCount(calls: seq<bool>, n: nat): nat
    requires n <= |calls|
  {
    if n == 0 then 0
    else ChangeCount(calls, n - 1) + (if ChangedAt(calls, n - 1) then 1 else 0)
  }

  /** ChangeCount over the first `n` calls looks only at those calls. */
  lemma {:induction false} ChangeCountPrefix(calls: seq<bool>, m: nat, n: nat)
    requires n <= m <= |calls|
    ensures ChangeCount(calls[..m], n) == ChangeCount(calls, n)
  {
    if n > 0 {
      ChangeCountPrefix(calls, m, n - 1);
      assert calls[..m][n - 1] == calls[n - 1];
      if n > 1 {
        assert calls[..m][n - 2] == calls[n - 2];
      }
    }
  }

  /** Over any sequence of calls, the number of requests sent equals the
      number of times the argument differs from the previous `lastState`. */
  lemma {:induction false} RequestCount(calls: seq<bool>)
    ensures |Requests(calls)| == ChangeCount(calls, |calls|)
  {
    if calls != [] {
      var n := |calls|;
      var before := calls[..n - 1];
      RequestCount(before);
      ChangeCountPrefix(calls, n - 1, n - 1);
      assert StateAfter(before) == Some(calls[n - 1]) <==> !ChangedAt(calls, n - 1);
    }
  }

  /** A sequence of URLs in which no two consecutive requests are equal. */
  predicate Alternating(urls: seq<string>)
  {
    forall k :: 0 <= k < |urls| - 1 ==> urls[k] != urls[k + 1]
  }

  /** No two consecutive requests issued are the same, and the last request
      issued asks for the state last decided on. This is about the requests
      issued, not about what the board receives: a request may be lost or
      overtaken by a later one. */
  lemma {:induction false} RequestsAlternate(calls: seq<bool>)
    ensures Alternating(Requests(calls))
    ensures calls != [] ==>
      |Requests(calls)| > 0 && Requests(calls)[|Requests(calls)| - 1] == PumpUrl(calls[|calls| - 1])
  {
    if calls != [] {
      var n := |calls|;
      var before := calls[..n - 1];
      var on := calls[n - 1];
      RequestsAlternate(before);
      if StateAfter(before) != Some(on) && before != [] {
        PumpUrlInjective(before[n - 2], on);
      }
    }
  }

  /** Debounce: the same value passed twice in a row produces at most one
      request in total, and repeating the current state sends nothing. So a
      lost request is not re-sent while the frame outcome stays the same. */
  lemma RepeatSendsNothing(calls: seq<bool>, on: bool)
    ensures Requests(calls + [on, on]) == Requests(calls + [on])
    ensures |Requests(calls + [on, on])| <= |Requests(calls)| + 1
  {
    var once := calls + [on];
    var twice := calls + [on, on];
    assert twice[..|twice| - 1] == once;
    assert once[..|once| - 1] == calls;
  }

  /** Since `lastState` starts as `null`, the first call always sends a
      request, whichever state it asks for. */
  lemma FirstCallSends(on: bool)
    ensures Requests([on]) == [PumpUrl(on)]
  {
    assert [on][..0] == [];
  }

  /** Three frames, the first two without weed and the third with weed:
      the first frame already sends "off" (nothing was sent before), the
      second is debounced, the third sends "on". */
  lemma ThreeFrameScenario()
    ensures Requests([false, false, true]) == [PumpUrl(false), PumpUrl(true)]
  {
    assert [false, false, true][..2] == [false] + [false];
    RepeatSendsNothing([], false);
    FirstCallSends(false);
    PumpUrlInjective(false, true);
  }

  /** The notifier's module state: `lastState` (null until the first call)
      and, as ghost state, the arguments received and the URLs requested. */
  class PumpNotifier {
    var lastState: Option<bool>
    ghost var calls: seq<bool>
    ghost var sent: seq<string>

    ghost predicate Valid()
      reads this
    {
      lastState == StateAfter(calls) && sent == Requests(calls)
    }

    constructor ()
      ensures Valid()
      ensures lastState == None && calls == [] && sent == []
    {
      lastState := None;
      calls := [];
      sent := [];
    }

    /** Asks the board for pump state `on` unless that is already the state
        last decided on. The state is recorded before the request goes out,
        and a failed request (only logged) does not undo it. */
    method SendPumpSignal(on: bool)
      requires Valid()
      modifies this
      ensures Valid()
      ensures calls == old(calls) + [on]
      ensures lastState == Some(on)
      ensures old(lastState) == Some(on) ==> sent == old(sent)
      ensures old(lastState) != Some(on) ==> sent == old(sent) + [PumpUrl(on)]
    {
      ghost var before := calls;
      calls := calls + [on];
      assert calls[..|calls| - 1] == before;
      if lastState == Some(on) {
        return;
      }
      lastState := Some(on);
      var url := PumpUrl(on);
      sent := sent + [url];
    }
  }
}

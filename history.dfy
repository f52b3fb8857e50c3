/**
 The clipboard history of `ClipboardEx` as values: one clipboard change
 (`copy_from_clipboard`) applied to the list of recorded texts, oldest first,
 and the lemmas that give the list its first-in-first-out meaning.
 */
module History {
  import opened Values

  /** What the clipboard's mime data offers: no text at all, or a text (possibly empty). */
  datatype Payload = NoText | Text(text: string)

  /** The history after one clipboard change and the record removed from the display, if any. */
  datatype Captured = Captured(records: seq<string>, evicted: Option<string>)

  /** Only a non-empty text payload is recorded. */
  predicate Recordable(p: Payload) {
    p.Text? && p.text != ""
  }

  /** `copy_from_clipboard` with the list `records` and the setting value `capacity`: when the
      length equals the setting (Python `==`), `pop(0)` evicts the oldest record; then the text
      is appended. `pop(0)` on an empty list raises. */
  function Capture(records: seq<string>, capacity: Json, p: Payload): (r: Result<Captured, Fault>)
    ensures r.Failure? <==> Recordable(p) && records == [] && PyIntEquals(0, capacity)
    ensures r.Success? && !Recordable(p) ==> r.value == Captured(records, None)
    ensures r.Success? && Recordable(p) ==> |r.value.records| > 0 && r.value.records[|r.value.records| - 1] == p.text
    ensures r.Success? && r.value.evicted.Some? ==>
      records != [] && r.value.evicted == Some(records[0]) && |r.value.records| == |records|
    ensures r.Success? && Recordable(p) && r.value.evicted.None? ==> r.value.records == records + [p.text]
  {
    if !Recordable(p) then
      Success(Captured(records, None))
    else if PyIntEquals(|records|, capacity) then
      if records == [] then Failure(PopFromEmptyList)
      else Success(Captured(records[1..] + [p.text], Some(records[0])))
    else
      Success(Captured(records + [p.text], None))
  }

  /** A sequence of clipboard changes, processed one at a time in arrival order. */
  function CaptureAll(records: seq<string>, capacity: Json, ps: seq<Payload>): (r: Result<seq<string>, Fault>)
    ensures Texts(ps) == [] ==> r == Success(records)
    ensures r.Success? ==> |r.value| <= |records| + |Texts(ps)|
    ensures r.Success? && Texts(ps) != [] ==> |r.value| > 0 && r.value[|r.value| - 1] == Texts(ps)[|Texts(ps)| - 1]
    decreases |ps|
  {
    if ps == [] then Success(records)
    else
      assert Texts(ps) == (if Recordable(ps[0]) then [ps[0].text] else []) + Texts(ps[1..]);
      match Capture(records, capacity, ps[0])
      case Failure(e) => Failure(e)
      case Success(c) => CaptureAll(c.records, capacity, ps[1..])
  }

  /** The texts of the recordable payloads, in arrival order. */
  function Texts(ps: seq<Payload>): (r: seq<string>)
    ensures |r| <= |ps|
    ensures forall i :: 0 <= i < |r| ==> r[i] != ""
  {
    if ps == [] then []
    else (if Recordable(ps[0]) then [ps[0].text] else []) + Texts(ps[1..])
  }

  /** The newest `n` elements of `s` (all of them if there are fewer). */
  function LastN(n: nat, s: seq<string>): (r: seq<string>)
    ensures |r| == if |s| <= n then |s| else n
  {
    if |s| <= n then s else s[|s| - n..]
  }

  /** A payload without text, or with empty text, leaves the history exactly as it was. */
  lemma CaptureIgnoresUnrecordable(records: seq<string>, capacity: Json, p: Payload)
    requires !Recordable(p)
    ensures Capture(records, capacity, p) == Success(Captured(records, None))
  {
  }

  /** At capacity, the single oldest record is evicted, the rest keep their order, the new text
      comes last and the length is unchanged. */
  lemma CaptureWhenFull(records: seq<string>, n: int, p: Payload)
    requires Recordable(p) && |records| == n && records != []
    ensures Capture(records, JInt(n), p).Success?
    ensures Capture(records, JInt(n), p).value.evicted == Some(records[0])
    ensures Capture(records, JInt(n), p).value.records == records[1..] + [p.text]
    ensures |Capture(records, JInt(n), p).value.records| == |records|
  {
  }

  /** Below (or above) capacity, the text is appended and nothing is evicted: the length grows by one. */
  lemma CaptureWhenNotFull(records: seq<string>, capacity: Json, p: Payload)
    requires Recordable(p) && IntegerValue(capacity) != Some(|records|)
    ensures Capture(records, capacity, p) == Success(Captured(records + [p.text], None))
    ensures |Capture(records, capacity, p).value.records| == |records| + 1
  {
  }

  /** A history within a capacity of at least one stays within it after any clipboard change,
      and holds the newest entries of the old history followed by the new text. */
  lemma CaptureKeepsBound(records: seq<string>, capacity: Json, n: int, p: Payload)
    requires IntegerValue(capacity) == Some(n) && 1 <= n && |records| <= n
    ensures Capture(records, capacity, p).Success?
    ensures |Capture(records, capacity, p).value.records| <= n
    ensures Recordable(p) ==> Capture(records, capacity, p).value.records == LastN(n, records + [p.text])
  {
  }

  /** Keeping the newest `n` of a prefix and then the newest `n` of the whole is keeping the newest `n`. */
  lemma LastNAppend(n: nat, a: seq<string>, b: seq<string>)
    ensures LastN(n, LastN(n, a) + b) == LastN(n, a + b)
  {
  }

  /** First in, first out: from a history within a capacity `n >= 1`, any sequence of clipboard
      changes leaves exactly the newest `n` of the old records followed by the recorded texts. */
  lemma {:induction false} CaptureAllKeepsNewest(records: seq<string>, capacity: Json, n: int, ps: seq<Payload>)
    requires IntegerValue(capacity) == Some(n) && 1 <= n && |records| <= n
    ensures CaptureAll(records, capacity, ps) == Success(LastN(n, records + Texts(ps)))
    decreases |ps|
  {
    if ps == [] {
      assert records + Texts(ps) == records;
    } else {
      var p, rest := ps[0], ps[1..];
      CaptureKeepsBound(records, capacity, n, p);
      CaptureAllStep(records, capacity, ps);
      var next := Capture(records, capacity, p).value.records;
      CaptureAllKeepsNewest(next, capacity, n, rest);
      NewestAfterOne(n, records, next, p, Texts(rest));
    }
  }

  /** The window after one change, extended by the later texts, is the window of all texts. */
  lemma NewestAfterOne(n: nat, records: seq<string>, next: seq<string>, p: Payload, later: seq<string>)
    requires |records| <= n
    requires next == if Recordable(p) then LastN(n, records + [p.text]) else records
    ensures LastN(n, next + later) == LastN(n, records + ((if Recordable(p) then [p.text] else []) + later))
  {
    if Recordable(p) {
      LastNAppend(n, records + [p.text], later);
      assert records + [p.text] + later == records + ([p.text] + later);
    } else {
      assert [] + later == later;
    }
  }

  /** One step of `CaptureAll` and of `Texts`. */
  lemma CaptureAllStep(records: seq<string>, capacity: Json, ps: seq<Payload>)
    requires ps != [] && Capture(records, capacity, ps[0]).Success?
    ensures CaptureAll(records, capacity, ps) == CaptureAll(Capture(records, capacity, ps[0]).value.records, capacity, ps[1..])
    ensures Texts(ps) == if Recordable(ps[0]) then [ps[0].text] + Texts(ps[1..]) else Texts(ps[1..])
  {
  }

  /** The bound as a corollary: every history reached from one within capacity `n >= 1` is within it. */
  lemma CaptureAllKeepsBound(records: seq<string>, capacity: Json, n: int, ps: seq<Payload>)
    requires IntegerValue(capacity) == Some(n) && 1 <= n && |records| <= n
    ensures CaptureAll(records, capacity, ps).Success?
    ensures |CaptureAll(records, capacity, ps).value| <= n
  {
    CaptureAllKeepsNewest(records, capacity, n, ps);
  }

  /** Lazy trimming: when the setting stands for no integer, or for one below the current length
      (the capacity was lowered), nothing is ever evicted and every recorded text makes the list longer. */
  lemma {:induction false} CaptureAllNeverTrims(records: seq<string>, capacity: Json, ps: seq<Payload>)
    requires IntegerValue(capacity).None? || IntegerValue(capacity).value < |records|
    ensures CaptureAll(records, capacity, ps) == Success(records + Texts(ps))
    decreases |ps|
  {
    if ps == [] {
      assert records + Texts(ps) == records;
    } else {
      var p, rest := ps[0], ps[1..];
      if Recordable(p) {
        CaptureWhenNotFull(records, capacity, p);
        CaptureAllStep(records, capacity, ps);
        CaptureAllNeverTrims(records + [p.text], capacity, rest);
        assert records + [p.text] + Texts(rest) == records + Texts(ps);
      } else {
        CaptureAllStep(records, capacity, ps);
        CaptureAllNeverTrims(records, capacity, rest);
      }
    }
  }

  /** A setting of 0 (which a settings file can hold) makes the first recorded text on an empty
      history hit `pop(0)` on an empty list. */
  lemma {:induction false} CaptureAllZeroCapacityFails(capacity: Json, ps: seq<Payload>)
    requires IntegerValue(capacity) == Some(0) && Texts(ps) != []
    ensures CaptureAll([], capacity, ps) == Failure(PopFromEmptyList)
    decreases |ps|
  {
    if !Recordable(ps[0]) {
      assert Texts(ps) == Texts(ps[1..]);
      CaptureAllZeroCapacityFails(capacity, ps[1..]);
    }
  }

  /** With capacity 3, copying "a", "b", "c", "d" leaves "b", "c", "d" in that order. */
  lemma CapacityThreeScenario()
    ensures CaptureAll([], JInt(3), [Text("a"), Text("b"), Text("c"), Text("d")]) == Success(["b", "c", "d"])
  {
    var ps := [Text("a"), Text("b"), Text("c"), Text("d")];
    assert Texts(ps) == ["a", "b", "c", "d"] by {
      assert Texts(ps[3..]) == ["d"];
      assert Texts(ps[2..]) == ["c", "d"];
      assert Texts(ps[1..]) == ["b", "c", "d"];
    }
    CaptureAllKeepsNewest([], JInt(3), 3, ps);
    assert [] + Texts(ps) == ["a", "b", "c", "d"];
    assert ["a", "b", "c", "d"][1..] == ["b", "c", "d"];
    assert LastN(3, ["a", "b", "c", "d"]) == ["b", "c", "d"];
  }
}

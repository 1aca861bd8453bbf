/**
 * The exceptions a collaborator call can raise and the catch ladders that
 * turn them into a single diagnostic line.
 *
 * Every try block of the device stream client ends with the same five
 * handlers, tried in order:
 *   IotHubCommunicationException, DeviceNotFoundException,
 *   TaskCanceledException, OperationCanceledException, Exception.
 * `TaskCanceledException` derives from `OperationCanceledException`, so the
 * order of the third and fourth handler matters; `Exception` catches all.
 */
module Exceptions {
  import opened Basics

  /** The exception classes the handlers distinguish; `General` is any other class. */
  datatype ExnKind =
    | IotHubCommunication
    | DeviceNotFound
    | TaskCanceled
    | OperationCanceled
    | General

  /** A thrown exception: its class and its `Message`. */
  datatype Exn = Exn(kind: ExnKind, message: string)

  /** One `catch (T)` clause, named after the class T it catches. */
  datatype Handler =
    | CatchIotHubCommunication
    | CatchDeviceNotFound
    | CatchTaskCanceled
    | CatchOperationCanceled
    | CatchException

  /** Which try block a diagnostic line comes from; the number starts the line. */
  datatype Site =
    | Site1   // inner try of RunClientAsync
    | Site2   // outer try of RunClientAsync
    | Site3   // try around the awaited RunClientAsync inside RunClient
    | Site4   // outer try of RunClient

  /** A `Debug.WriteLine` diagnostic: the site and the text after the prefix. */
  datatype LogLine = LogLine(site: Site, text: string)

  /** C# subtyping: a clause catches its own class and every class derived from it. */
  predicate Catches(h: Handler, e: Exn)
  {
    match h
    case CatchIotHubCommunication => e.kind == IotHubCommunication
    case CatchDeviceNotFound => e.kind == DeviceNotFound
    case CatchTaskCanceled => e.kind == TaskCanceled
    case CatchOperationCanceled => e.kind == OperationCanceled || e.kind == TaskCanceled
    case CatchException => true
  }

  /** The ordinal substring search of `String.Contains`, scanning left to right. */
  predicate Contains(s: string, sub: string)
    decreases |s|
  {
    |sub| <= |s| && (s[..|sub|] == sub || Contains(s[1..], sub))
  }

  /** `sub` occurs in `s` at offset `i`. */
  ghost predicate OccursAt(s: string, sub: string, i: int)
  {
    0 <= i && i + |sub| <= |s| && s[i..i + |sub|] == sub
  }

  /** An occurrence past the first character is an occurrence in the tail. */
  lemma OccursInTail(s: string, sub: string, i: int)
    requires OccursAt(s, sub, i) && i > 0
    ensures OccursAt(s[1..], sub, i - 1)
  {
    assert s[1..][i - 1..i - 1 + |sub|] == s[i..i + |sub|];
  }

  /** An occurrence in the tail is an occurrence one character further on. */
  lemma OccursFromTail(s: string, sub: string, i: int)
    requires |s| > 0 && OccursAt(s[1..], sub, i)
    ensures OccursAt(s, sub, i + 1)
  {
    assert s[1..][i..i + |sub|] == s[i + 1..i + 1 + |sub|];
  }

  /** The scan does not miss an occurrence. */
  lemma {:induction false} ContainsWhenOccurs(s: string, sub: string, i: int)
    requires OccursAt(s, sub, i)
    ensures Contains(s, sub)
    decreases i
  {
    if i == 0 {
      assert s[..|sub|] == s[0..|sub|];
    } else if s[..|sub|] != sub {
      OccursInTail(s, sub, i);
      ContainsWhenOccurs(s[1..], sub, i - 1);
    }
  }

  /** The scan reports only genuine occurrences. */
  lemma {:induction false} OccursWhenContains(s: string, sub: string) returns (i: int)
    requires Contains(s, sub)
    ensures OccursAt(s, sub, i)
    decreases |s|
  {
    if s[..|sub|] == sub {
      i := 0;
    } else {
      var j := OccursWhenContains(s[1..], sub);
      OccursFromTail(s, sub, j);
      i := j + 1;
    }
  }

  /** The scan finds `sub` exactly when it occurs somewhere in `s`. */
  lemma ContainsIffOccurs(s: string, sub: string)
    ensures Contains(s, sub) <==> exists i :: OccursAt(s, sub, i)
  {
    if Contains(s, sub) {
      var i := OccursWhenContains(s, sub);
    }
    if i :| OccursAt(s, sub, i) {
      ContainsWhenOccurs(s, sub, i);
    }
  }

  /** The text a clause logs for the exception it caught. */
  function HandlerText(h: Handler, e: Exn): string
  {
    match h
    case CatchIotHubCommunication => "Hub connection failure"
    case CatchDeviceNotFound => "Device not found"
    case CatchTaskCanceled => "Task canceled"
    case CatchOperationCanceled => "Operation canceled"
    case CatchException => if !Contains(e.message, "Timeout") then e.message else "Timeout"
  }

  /** The five clauses every try block of the client carries, in source order. */
  const StandardLadder: seq<Handler> :=
    [CatchIotHubCommunication, CatchDeviceNotFound, CatchTaskCanceled,
     CatchOperationCanceled, CatchException]

  /**
   * C# catch semantics: the first clause whose class matches handles the
   * exception; `None` means no clause matched and the exception propagates.
   */
  function Dispatch(ladder: seq<Handler>, e: Exn): (r: Option<string>)
    ensures r.Some? <==> exists i :: 0 <= i < |ladder| && Catches(ladder[i], e)
    ensures r.Some? ==>
              exists i :: && 0 <= i < |ladder| && Catches(ladder[i], e)
                          && (forall j :: 0 <= j < i ==> !Catches(ladder[j], e))
                          && r.value == HandlerText(ladder[i], e)
  {
    if ladder == [] then None
    else if Catches(ladder[0], e) then Some(HandlerText(ladder[0], e))
    else
      var rest := Dispatch(ladder[1..], e);
      assert forall i :: 1 <= i < |ladder| ==> ladder[i] == ladder[1..][i - 1];
      if rest.Some? then
        var i :| && 0 <= i < |ladder[1..]| && Catches(ladder[1..][i], e)
                 && (forall j :: 0 <= j < i ==> !Catches(ladder[1..][j], e))
                 && rest.value == HandlerText(ladder[1..][i], e);
        assert forall j :: 0 <= j < i + 1 ==> !Catches(ladder[j], e) by {
          forall j | 0 <= j < i + 1
            ensures !Catches(ladder[j], e)
          {
            if j > 0 {
              assert ladder[j] == ladder[1..][j - 1];
            }
          }
        }
        rest
      else
        rest
  }

  /** One step of the ladder: the head clause handles, or the rest is tried. */
  lemma DispatchCons(h: Handler, rest: seq<Handler>, e: Exn)
    ensures Dispatch([h] + rest, e)
         == if Catches(h, e) then Some(HandlerText(h, e)) else Dispatch(rest, e)
  {
    assert ([h] + rest)[0] == h;
    assert ([h] + rest)[1..] == rest;
  }

  /**
   * The classification as one flat function of the exception's class: the
   * reference the ordered ladder is compared against.
   */
  function Classify(e: Exn): string
  {
    match e.kind
    case IotHubCommunication => "Hub connection failure"
    case DeviceNotFound => "Device not found"
    case TaskCanceled => "Task canceled"
    case OperationCanceled => "Operation canceled"
    case General => if Contains(e.message, "Timeout") then "Timeout" else e.message
  }

  /** The ordered ladder computes the flat classification, and it catches everything. */
  lemma StandardLadderClassifies(e: Exn)
    ensures Dispatch(StandardLadder, e) == Some(Classify(e))
  {
    var l4 := [CatchException];
    var l3 := [CatchOperationCanceled] + l4;
    var l2 := [CatchTaskCanceled] + l3;
    var l1 := [CatchDeviceNotFound] + l2;
    assert StandardLadder == [CatchIotHubCommunication] + l1;
    DispatchCons(CatchIotHubCommunication, l1, e);
    DispatchCons(CatchDeviceNotFound, l2, e);
    DispatchCons(CatchTaskCanceled, l3, e);
    DispatchCons(CatchOperationCanceled, l4, e);
    DispatchCons(CatchException, [], e);
  }

  /** A ladder that ends in `catch (Exception)` lets no exception through. */
  lemma {:induction false} CatchAllAbsorbs(ladder: seq<Handler>, e: Exn)
    requires CatchException in ladder
    ensures Dispatch(ladder, e).Some?
  {
    var i :| 0 <= i < |ladder| && ladder[i] == CatchException;
    assert Catches(ladder[i], e);
  }

  /**
   * A task cancellation is also an operation cancellation, yet it is reported
   * as "Task canceled" because its own clause comes first.
   */
  lemma TaskCanceledShadowsOperationCanceled(e: Exn)
    requires e.kind == TaskCanceled
    ensures Catches(CatchOperationCanceled, e)
    ensures Dispatch(StandardLadder, e) == Some("Task canceled")
    ensures Dispatch(StandardLadder, e) != Some("Operation canceled")
  {
    StandardLadderClassifies(e);
  }

  /**
   * The catch-all reports the message unless the message mentions "Timeout",
   * in which case it reports just "Timeout".
   */
  lemma TimeoutRule(e: Exn)
    requires e.kind == General
    ensures (exists i :: OccursAt(e.message, "Timeout", i)) ==> Dispatch(StandardLadder, e) == Some("Timeout")
    ensures (forall i :: !OccursAt(e.message, "Timeout", i)) ==> Dispatch(StandardLadder, e) == Some(e.message)
  {
    ContainsIffOccurs(e.message, "Timeout");
    StandardLadderClassifies(e);
  }

  /** The fixed prefix `Debug.WriteLine` puts in front of each site's text. */
  function SitePrefix(site: Site): string
  {
    match site
    case Site1 => "1 Error RunClientAsync(): "
    case Site2 => "2 Error RunClientAsync(): "
    case Site3 => "3 Error RunClient(): "
    case Site4 => "4 Error RunClient(): "
  }

  /** The full diagnostic line as written. */
  function Render(line: LogLine): (r: string)
    ensures |r| == |SitePrefix(line.site)| + |line.text|
    ensures r[..|SitePrefix(line.site)|] == SitePrefix(line.site)
    ensures r[|SitePrefix(line.site)|..] == line.text
  {
    SitePrefix(line.site) + line.text
  }

  /** A logged line identifies both the site that logged it and the text. */
  lemma RenderInjective(a: LogLine, b: LogLine)
    requires Render(a) == Render(b)
    ensures a == b
  {
    assert Render(a)[0] == SitePrefix(a.site)[0];
    assert Render(b)[0] == SitePrefix(b.site)[0];
    assert a.site == b.site;
  }
}

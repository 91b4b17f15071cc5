/** The queue's checks on a message before a service sees it. */
module QueueHandler {
  import opened Outcomes
  import opened Strings
  import opened Json

  const MAX_PAYLOAD_BYTES := 64 * 1024
  const MAX_NAME_BYTES := 1024

  datatype BuildMessage = BuildMessage(functionId: nat, codeObjectName: string)

  datatype ExecuteMessage = ExecuteMessage(
    invocationId: nat, codeObjectName: string, dependenciesObjectName: string, payload: string)

  /** A payload of `size` bytes that the JSON decoder reads as `parsed`, if at all. */
  datatype Payload<+M> = Payload(size: nat, parsed: Option<M>)

  function DecodePayload<M>(p: Payload<M>): Option<M> {
    if p.size > MAX_PAYLOAD_BYTES then None else p.parsed
  }

  /** ".." stands between two slashes, or between a slash and an end, or alone. */
  ghost predicate Climbs(name: string) {
    exists i :: 0 <= i && ClimbsAt(name, i)
  }

  predicate ClimbsAt(name: string, i: nat) {
    && At(name, "..", i)
    && (i == 0 || name[i - 1] == '/')
    && (i + 2 == |name| || name[i + 2] == '/')
  }

  ghost predicate ValidObjectName(name: string) {
    name != "" && Bytes(name) <= MAX_NAME_BYTES && '\0' !in name && !Climbs(name)
  }

  method ValidateObjectName(name: string) returns (ok: bool)
    ensures ok <==> ValidObjectName(name)
    ensures ok <==> 0 < |name| && Bytes(name) <= 1024 && '\0' !in name && ".." !in Split(name, '/')
  {
    if name == "" {
      return false;
    }
    if Bytes(name) > MAX_NAME_BYTES {
      return false;
    }
    if '\0' in name {
      return false;
    }
    ClimbsIffSegment(name);
    var segments := Split(name, '/');
    for i := 0 to |segments|
      invariant ".." !in segments[..i]
    {
      if segments[i] == ".." {
        return false;
      }
      assert segments[..i + 1] == segments[..i] + [segments[i]];
    }
    assert segments[..|segments|] == segments;
    return true;
  }

  lemma {:induction false} ClimbsIffSegment(name: string)
    ensures Climbs(name) <==> ".." in Split(name, '/')
  {
    var k := IndexOf(name, '/');
    if k == -1 {
      SplitHead(name, "", '/');
      if name == ".." {
        assert ClimbsAt(name, 0);
      }
    } else {
      var head, tail := name[..k], name[k + 1..];
      assert name == head + ['/'] + tail;
      SplitHead(head, tail, '/');
      ClimbsIffSegment(tail);
      ClimbsIff(name, k);
    }
  }

  lemma ClimbsIff(name: string, k: nat)
    requires k < |name| && name[k] == '/' && '/' !in name[..k]
    ensures Climbs(name) <==> name[..k] == ".." || Climbs(name[k + 1..])
  {
    if name[..k] == ".." {
      assert name[0..2] == name[..k];
      assert ClimbsAt(name, 0);
    }
    var tail := name[k + 1..];
    if i :| 0 <= i && ClimbsAt(tail, i) {
      assert name[i + k + 1..i + k + 3] == tail[i..i + 2];
      assert ClimbsAt(name, i + k + 1);
    }
    if i :| 0 <= i && ClimbsAt(name, i) {
      ClimbsSplits(name, k, i);
    }
  }

  lemma ClimbsSplits(name: string, k: nat, i: nat)
    requires k < |name| && name[k] == '/' && '/' !in name[..k] && ClimbsAt(name, i)
    ensures name[..k] == ".." || Climbs(name[k + 1..])
  {
    assert name[i] == name[i..i + 2][0] == '.' && name[i + 1] == name[i..i + 2][1] == '.';
    assert forall j :: 0 <= j < k ==> name[j] in name[..k];
    if i < k {
      assert i == 0 && i + 2 >= k;
    } else {
      var tail := name[k + 1..];
      assert tail[i - k - 1..i - k + 1] == name[i..i + 2];
      assert ClimbsAt(tail, i - k - 1);
    }
  }
}

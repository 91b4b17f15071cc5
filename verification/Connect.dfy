/** Dialling the agent in a fresh VM until it answers. */
module Connect {
  import opened Outcomes

  const CONNECT_RETRIES := 20

  /** What one attempt meets; `closes` says whether closing the failed connection works. */
  datatype Attempt = NoDial | WriteFails(closes: bool) | BadAck(closes: bool) | Accepts

  /** Connections of one VM; a connection is named by the attempt that dialled it. */
  class Dialler {
    var dialled: set<nat>
    var open: set<nat>

    constructor ()
      ensures dialled == {} && open == {}
    {
      dialled, open := {}, {};
    }

    method Dial(i: nat, a: Attempt) returns (ok: bool)
      modifies this
      ensures ok == !a.NoDial?
      ensures dialled == old(dialled) + (if ok then {i} else {}) && open == old(open) + if ok then {i} else {}
    {
      ok := !a.NoDial?;
      if ok {
        dialled, open := dialled + {i}, open + {i};
      }
    }

    method Close(i: nat, works: bool)
      modifies this`open
      ensures open == if works then old(open) - {i} else old(open)
    {
      if works {
        open := open - {i};
      }
    }

    /**
     The connection returned is the first accepted one, unless closing an earlier one failed; on success
     it alone is open, and when all attempts are used up none is.
     */
    method Connect(attempts: seq<Attempt>) returns (conn: Option<nat>)
      requires |attempts| == CONNECT_RETRIES && open == {}
      modifies this
      ensures conn.Some? <==>
        exists i :: 0 <= i < |attempts| && attempts[i].Accepts?
                    && forall j :: 0 <= j < i ==> attempts[j] in {NoDial, WriteFails(true), BadAck(true)}
      ensures conn.Some? ==> conn.value < |attempts| && attempts[conn.value].Accepts? && open == {conn.value}
      ensures conn.Some? ==>
        forall j :: 0 <= j < conn.value ==> attempts[j] in {NoDial, WriteFails(true), BadAck(true)}
      ensures (forall j :: 0 <= j < |attempts| ==> attempts[j] in {NoDial, WriteFails(true), BadAck(true)}) ==>
        conn == None && open == {}
      ensures |open| <= 1
    {
      for i := 0 to CONNECT_RETRIES
        invariant open == {} && forall j :: 0 <= j < i ==> attempts[j] in {NoDial, WriteFails(true), BadAck(true)}
      {
        var a := attempts[i];
        var ok := Dial(i, a);
        if !ok {
          continue;
        }
        if a.WriteFails? {
          Close(i, a.closes);
          if !a.closes {
            return None;
          }
          continue;
        }
        if a.BadAck? {
          Close(i, a.closes);
          if !a.closes {
            return None;
          }
          continue;
        }
        return Some(i);
      }
      return None;
    }
  }
}

/** The bookkeeping of service responses across two accounts: what the exporter waits for, and the
    reverse entries by which the requester finds it again when interest in the reply is lost. */
module ResponseMaps {
  type Name = string

  /** A response that the exporter waits for: who asked, where the reply goes, for which export and since
      when, and whether delivery has been attempted. */
  datatype Pending = Pending(dest: Name, to: string, service: string, ts: int, delivered: bool)

  /** Points from the requester to the response in the exporter. */
  datatype Entry = Entry(acc: Name, msub: string)

  type Responses = map<string, Pending>
  type ReverseMap = map<string, seq<Entry>>

  predicate Has(entries: seq<Entry>, id: string) {
    exists i :: 0 <= i < |entries| && entries[i].msub == id
  }

  /** No two entries for one response. */
  predicate Distinct(entries: seq<Entry>) {
    forall i, j :: 0 <= i < j < |entries| ==> entries[i].msub != entries[j].msub
  }

  /** The first entry for the response is taken out. */
  function Without(entries: seq<Entry>, id: string): (rest: seq<Entry>) {
    if entries == [] then []
    else if entries[0].msub == id then entries[1..]
    else [entries[0]] + Without(entries[1..], id)
  }

  lemma {:induction false} WithoutAt(entries: seq<Entry>, id: string, i: nat)
    requires i <= |entries| && (forall j :: 0 <= j < i ==> entries[j].msub != id) && (i < |entries| ==> entries[i].msub == id)
    ensures Without(entries, id) == entries[..i] + if i < |entries| then entries[i + 1..] else []
  {
    if i > 0 {
      WithoutAt(entries[1..], id, i - 1);
    }
  }

  function Entries(rr: ReverseMap, reply: string): (entries: seq<Entry>) {
    if reply in rr then rr[reply] else []
  }

  function Linked(rr: ReverseMap, reply: string, e: Entry): (rr': ReverseMap) {
    rr[reply := Entries(rr, reply) + [e]]
  }

  function Unlinked(rr: ReverseMap, reply: string, id: string): (rr': ReverseMap) {
    if reply !in rr then rr
    else
      var rest := Without(rr[reply], id);
      if rest == [] then rr - {reply} else rr[reply := rest]
  }

  /** An undelivered response is given up, a delivered one is left to whoever delivers it. */
  function Dropped(responses: Responses, id: string): (r: Responses) {
    if id in responses && !responses[id].delivered then responses - {id} else responses
  }

  predicate IsExpired(p: Pending, service: string, mints: int) {
    p.service == service && p.ts <= mints
  }

  /** The critical sections of an account. */
  class Account {
    var responses: Responses
    var rrMap: ReverseMap

    constructor ()
      ensures responses == map[] && rrMap == map[]
    {
      responses, rrMap := map[], map[];
    }

    method AddResponse(id: string, dest: Name, to: string, service: string, now: int)
      modifies this`responses
      ensures forall i :: i in responses <==> i in old(responses) || i == id
      ensures forall i :: i in responses && i != id ==> responses[i] == old(responses)[i]
      ensures responses[id].dest == dest && responses[id].to == to && !responses[id].delivered
      ensures forall mints :: IsExpired(responses[id], service, mints) <==> now <= mints
    {
      responses := responses[id := Pending(dest, to, service, now, false)];
    }

    method AddReverse(acc: Name, reply: string, from: string)
      modifies this`rrMap
      ensures rrMap == Linked(old(rrMap), reply, Entry(acc, from))
    {
      var entries := if reply in rrMap then rrMap[reply] else [];
      rrMap := rrMap[reply := entries + [Entry(acc, from)]];
    }

    method RemoveResponse(from: string)
      modifies this`responses
      ensures forall i :: i in responses <==> i in old(responses) && i != from
      ensures forall i :: i in responses ==> responses[i] == old(responses)[i]
    {
      responses := responses - {from};
    }

    /** With a response to look for: its entry goes, and the reply with the last entry. */
    method RemoveReverse(reply: string, from: string)
      modifies this`rrMap
      ensures rrMap == Unlinked(old(rrMap), reply, from)
    {
      if reply in rrMap {
        var entries := rrMap[reply];
        var i := 0;
        while i < |entries| && entries[i].msub != from
          invariant 0 <= i <= |entries|
          invariant forall j :: 0 <= j < i ==> entries[j].msub != from
        {
          i := i + 1;
        }
        WithoutAt(entries, from, i);
        assert i == |entries| ==> entries[..i] + [] == entries;
        if i < |entries| {
          entries := entries[..i] + entries[i + 1..];
        }
        if |entries| > 0 {
          rrMap := rrMap[reply := entries];
        } else {
          rrMap := rrMap - {reply};
        }
      }
    }

    /** Without one: all entries of the reply go, unless there is interest in it still. */
    method TakeReverse(reply: string, interest: bool) returns (taken: seq<Entry>)
      modifies this`rrMap
      ensures interest ==> taken == [] && rrMap == old(rrMap)
      ensures !interest ==> taken == Entries(old(rrMap), reply) && rrMap == old(rrMap) - {reply}
    {
      taken := [];
      if reply in rrMap && !interest {
        taken := rrMap[reply];
        rrMap := rrMap - {reply};
      }
    }

    method DropResponse(msub: string)
      modifies this`responses
      ensures responses == Dropped(old(responses), msub)
    {
      if msub in responses && !responses[msub].delivered {
        responses := responses - {msub};
      }
    }

    method MarkDelivered(id: string)
      modifies this`responses
      ensures responses.Keys == old(responses).Keys
      ensures forall i :: i in responses && i != id ==> responses[i] == old(responses)[i]
      ensures id in responses ==> responses[id] == old(responses)[id].(delivered := true) && Dropped(responses, id) == responses
    {
      if id in responses {
        responses := responses[id := responses[id].(delivered := true)];
      }
    }

    /** The responses of one export that have waited too long. */
    method FindExpired(service: string, mints: int) returns (expired: set<string>, left: nat)
      ensures forall id :: id in expired <==> id in responses && IsExpired(responses[id], service, mints)
      ensures left == |set id | id in responses && responses[id].service == service && responses[id].ts > mints|
    {
      expired := {};
      ghost var waiting: set<string> := {};
      left := 0;
      var todo := responses.Keys;
      while todo != {}
        invariant todo <= responses.Keys && left == |waiting|
        invariant forall id :: id in expired <==> id in responses.Keys - todo && IsExpired(responses[id], service, mints)
        invariant forall id :: id in waiting <==> id in responses.Keys - todo && responses[id].service == service && responses[id].ts > mints
        decreases todo
      {
        var id :| id in todo;
        var p := responses[id];
        if p.service == service {
          if p.ts <= mints {
            expired := expired + {id};
          } else {
            left := left + 1;
            waiting := waiting + {id};
          }
        }
        todo := todo - {id};
      }
      assert waiting == set id | id in responses && responses[id].service == service && responses[id].ts > mints;
    }
  }
}

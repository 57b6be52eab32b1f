/**
 * The probe table (healthz/healthz.go): the configured probes and, in the
 * same order, the latest status of each, with the lookup, the bulk read, the
 * in-place update a finished check performs, and the branch that turns a DNS
 * exchange outcome into a status.
 */
module Healthz {
  import opened Wrappers
  import opened Statuses
  import opened Config
  import Strings

  /** Response code "server failure" (section 4.1.1 of RFC 1035). */
  const RcodeServerFailure: int := 2

  /**
   * What `dns.ExchangeContext` hands back: a transport error, or a reply with
   * its response code and the text of each answer record.
   */
  datatype Exchange = TransportError(err: Err) | Reply(rcode: int, answers: seq<string>)

  /** The record a probe shows before its first check completes. */
  function Placeholder(tag: string, now: Time): (s: Status)
    ensures forall names :: s == NewStatus(tag, 0, "", None, now, names)
    ensures s.tag == tag && s.rcode == 0 && s.answer == "" && Error(s).None?
  {
    NewStatus(tag, 0, "", None, now, map[])
  }

  /** One placeholder per probe, in probe order. */
  function Placeholders(p: seq<Probe>, now: Time): (r: seq<Status>)
    ensures |r| == |p|
    ensures forall i :: 0 <= i < |p| ==> r[i] == Placeholder(p[i].name, now)
  {
    if p == [] then [] else Placeholders(p[..|p| - 1], now) + [Placeholder(p[|p| - 1].name, now)]
  }

  /** Position of the first entry tagged `tag`, or `|table|` when there is none. */
  function FirstMatch(table: seq<Status>, tag: string): (k: nat)
    ensures k <= |table|
    ensures k < |table| ==> table[k].tag == tag
    ensures forall j :: 0 <= j < k ==> table[j].tag != tag
  {
    if table == [] then 0
    else if table[0].tag == tag then 0
    else 1 + FirstMatch(table[1..], tag)
  }

  predicate Has(table: seq<Status>, tag: string) {
    exists i :: 0 <= i < |table| && table[i].tag == tag
  }

  /** What `Healthz.Status` answers for `table`: the first match, else the not-found sentinel. */
  function Lookup(table: seq<Status>, tag: string, now: Time): (s: Status)
    ensures Has(table, tag) ==>
      exists i :: (0 <= i < |table| && s == table[i]
        && table[i].tag == tag && forall j :: 0 <= j < i ==> table[j].tag != tag)
    ensures !Has(table, tag) ==> s == StatusNotFound(tag, now)
  {
    var k := FirstMatch(table, tag);
    if k < |table| then table[k] else StatusNotFound(tag, now)
  }

  /** What `setStatus(s)` leaves in `table`: every entry tagged `s.tag` replaced by `s`. */
  function Replaced(table: seq<Status>, s: Status): (r: seq<Status>)
    ensures |r| == |table|
    ensures forall i :: 0 <= i < |table| ==> r[i] == if table[i].tag == s.tag then s else table[i]
  {
    if table == [] then []
    else [if table[0].tag == s.tag then s else table[0]] + Replaced(table[1..], s)
  }

  /**
   * The branch at the end of `probe`: a transport error is recorded as a
   * server failure carrying that error; a reply is recorded with its own code
   * and the first answer record, tabs turned into spaces.
   */
  function Record(tag: string, outcome: Exchange, now: Time, names: map<int, string>): (s: Status)
    ensures s.tag == tag && s.time == now && WellFormed(s)
    ensures outcome.TransportError? ==>
      s.rcode == RcodeServerFailure && s.answer == ""
      && s.errMsg == outcome.err.text && Error(s) == Some(outcome.err)
    ensures outcome.Reply? ==> s.rcode == outcome.rcode && '\t' !in s.answer
    ensures outcome.Reply? && outcome.answers == [] ==> s.answer == ""
    ensures outcome.Reply? && outcome.answers != [] ==>
      |s.answer| == |outcome.answers[0]|
      && forall i :: 0 <= i < |s.answer| ==>
           s.answer[i] == if outcome.answers[0][i] == '\t' then ' ' else outcome.answers[0][i]
    ensures outcome.Reply? ==> (Error(s).None? <==> outcome.rcode == 0)
    ensures outcome.Reply? && outcome.rcode != 0 ==> s.errMsg == RcodeText(names, outcome.rcode)
  {
    match outcome
    case TransportError(er) => NewStatus(tag, RcodeServerFailure, "", Some(er), now, names)
    case Reply(rcode, answers) =>
      var ans := if |answers| > 0 then Strings.ReplaceAll(answers[0], '\t', ' ') else "";
      NewStatus(tag, rcode, ans, None, now, names)
  }

  /** `FirstMatch` is determined by where the tag first occurs. */
  lemma FirstMatchUnique(table: seq<Status>, tag: string, k: nat)
    requires k <= |table|
    requires k < |table| ==> table[k].tag == tag
    requires forall j :: 0 <= j < k ==> table[j].tag != tag
    ensures FirstMatch(table, tag) == k
  {
  }

  /**
   * Round trip: once `setStatus(s)` has run on a table that has an entry for
   * `s.tag`, looking that tag up yields exactly `s`.
   */
  lemma SetThenStatus(table: seq<Status>, s: Status, now: Time)
    requires Has(table, s.tag)
    ensures Lookup(Replaced(table, s), s.tag, now) == s
  {
    var r := Replaced(table, s);
    var k := FirstMatch(table, s.tag);
    FirstMatchUnique(r, s.tag, k);
  }

  /** `setStatus(s)` does not change what any other tag looks up to. */
  lemma SetLeavesOtherTags(table: seq<Status>, s: Status, tag: string, now: Time)
    requires tag != s.tag
    ensures Lookup(Replaced(table, s), tag, now) == Lookup(table, tag, now)
  {
    FirstMatchUnique(Replaced(table, s), tag, FirstMatch(table, tag));
  }

  /** `setStatus(s)` for a tag with no entry leaves the table as it was. */
  lemma SetUnknownIsNoop(table: seq<Status>, s: Status)
    requires !Has(table, s.tag)
    ensures Replaced(table, s) == table
  {
    var r := Replaced(table, s);
    assert forall i :: 0 <= i < |table| ==> r[i] == table[i];
  }

  /** Recording the same status twice leaves the table as recording it once. */
  lemma SetIdempotent(table: seq<Status>, s: Status)
    ensures Replaced(Replaced(table, s), s) == Replaced(table, s)
  {
    var r := Replaced(table, s);
    var rr := Replaced(r, s);
    assert forall i :: 0 <= i < |table| ==> rr[i] == r[i];
  }

  /** Only tags already in the table are ever stored: `setStatus` keeps every entry's tag. */
  lemma SetKeepsTags(table: seq<Status>, s: Status, tag: string)
    ensures Has(Replaced(table, s), tag) <==> Has(table, tag)
  {
    var r := Replaced(table, s);
    if Has(r, tag) {
      var i :| 0 <= i < |r| && r[i].tag == tag;
      assert table[i].tag == tag;
    }
    if Has(table, tag) {
      var i :| 0 <= i < |table| && table[i].tag == tag;
      assert r[i].tag == tag;
    }
  }

  /** Looking a tag up in two tables laid end to end: the first table wins. */
  lemma {:induction false} LookupAppend(t: seq<Status>, u: seq<Status>, tag: string, now: Time)
    ensures Has(t, tag) ==> Lookup(t + u, tag, now) == Lookup(t, tag, now)
    ensures !Has(t, tag) ==> Lookup(t + u, tag, now) == Lookup(u, tag, now)
  {
    var k := FirstMatch(t, tag);
    if k < |t| {
      FirstMatchUnique(t + u, tag, k);
    } else {
      var m := FirstMatch(u, tag);
      FirstMatchUnique(t + u, tag, |t| + m);
    }
  }

  /**
   * After `AddProbe(p...)`: a tag already in the table still finds its old
   * entry (a duplicate name is added but shadowed); a new name finds the
   * placeholder; any other name is still not found.
   */
  lemma AddProbeLookup(table: seq<Status>, p: seq<Probe>, now: Time, tag: string, later: Time)
    ensures Has(table, tag) ==>
      Lookup(table + Placeholders(p, now), tag, later) == Lookup(table, tag, later)
    ensures !Has(table, tag) && (exists i :: 0 <= i < |p| && p[i].name == tag) ==>
      Lookup(table + Placeholders(p, now), tag, later) == Placeholder(tag, now)
    ensures !Has(table, tag) && (forall i :: 0 <= i < |p| ==> p[i].name != tag) ==>
      Lookup(table + Placeholders(p, now), tag, later) == StatusNotFound(tag, later)
  {
    LookupAppend(table, Placeholders(p, now), tag, later);
    var ps := Placeholders(p, now);
    if exists i :: 0 <= i < |p| && p[i].name == tag {
      var i :| 0 <= i < |p| && p[i].name == tag;
      assert ps[i].tag == tag;
    } else {
      assert !Has(ps, tag);
    }
  }

  /** A table built by `New(p)` answers the placeholder for every configured name. */
  lemma NewAnswersPlaceholder(p: seq<Probe>, now: Time, i: nat, later: Time)
    requires i < |p|
    ensures Lookup(Placeholders(p, now), p[i].name, later) == Placeholder(p[i].name, now)
  {
    AddProbeLookup([], p, now, p[i].name, later);
    assert [] + Placeholders(p, now) == Placeholders(p, now);
  }

  /** The probes and their statuses, kept in step. */
  class Healthz {
    var probes: seq<Probe>
    var status: seq<Status>

    /** Entry `i` of the status table belongs to probe `i`. */
    ghost predicate Valid()
      reads this
    {
      |status| == |probes| && forall i :: 0 <= i < |status| ==> status[i].tag == probes[i].name
    }

    /**
     * Under `Valid()`, every configured name has a stored entry, so `Status`
     * answers it from the table and never with the not-found sentinel.
     */
    lemma ConfiguredNameFound(i: nat, now: Time)
      requires Valid()
      requires i < |probes|
      ensures Has(status, probes[i].name)
      ensures FirstMatch(status, probes[i].name) <= i
      ensures Lookup(status, probes[i].name, now) == status[FirstMatch(status, probes[i].name)]
    {
      assert status[i].tag == probes[i].name;
    }

    /** `New`: the given probes, each with a placeholder status. */
    constructor New(p: seq<Probe>, now: Time)
      ensures Valid()
      ensures probes == p
      ensures status == Placeholders(p, now)
    {
      var st: seq<Status> := [];
      for i := 0 to |p|
        invariant st == Placeholders(p[..i], now)
      {
        assert p[..i + 1][..i] == p[..i];
        st := st + [Placeholder(p[i].name, now)];
      }
      assert p[..|p|] == p;
      probes := p;
      status := st;
    }

    /**
     * `AddProbe`: the probes are appended as given, duplicates included, each
     * with a placeholder status after the existing entries.
     */
    method AddProbe(p: seq<Probe>, now: Time)
      requires Valid()
      modifies this
      ensures Valid()
      ensures probes == old(probes) + p
      ensures status == old(status) + Placeholders(p, now)
    {
      probes := probes + p;
      for i := 0 to |p|
        invariant probes == old(probes) + p
        invariant status == old(status) + Placeholders(p[..i], now)
      {
        assert p[..i + 1][..i] == p[..i];
        status := status + [Placeholder(p[i].name, now)];
      }
      assert p[..|p|] == p;
    }

    /** `Probes`: the configured probes. */
    method Probes() returns (r: seq<Probe>)
      ensures r == probes
    {
      r := probes;
    }

    /**
     * `Status`: the first entry tagged `tag`, or the not-found sentinel (built
     * at `now`) when there is none. The table is not changed.
     */
    method Status(tag: string, now: Time) returns (s: Status)
      ensures Has(status, tag) ==>
        exists i :: (0 <= i < |status| && s == status[i]
          && status[i].tag == tag && forall j :: 0 <= j < i ==> status[j].tag != tag)
      ensures !Has(status, tag) ==> s == StatusNotFound(tag, now)
      ensures s == Lookup(status, tag, now)
    {
      for i := 0 to |status|
        invariant forall j :: 0 <= j < i ==> status[j].tag != tag
      {
        if tag == status[i].tag {
          return status[i];
        }
      }
      return StatusNotFound(tag, now);
    }

    /** `AllStatus`: the whole table, in probe order. */
    method AllStatus() returns (r: seq<Status>)
      ensures r == status
    {
      r := status;
    }

    /**
     * `setStatus`: every entry tagged `s.tag` becomes `s`; the others, the
     * table's length and the probes stay as they were.
     */
    method SetStatus(s: Status)
      requires Valid()
      modifies this
      ensures Valid()
      ensures probes == old(probes)
      ensures status == Replaced(old(status), s)
    {
      for i := 0 to |status|
        invariant probes == old(probes)
        invariant |status| == |old(status)|
        invariant forall j :: 0 <= j < i ==> status[j] == if old(status)[j].tag == s.tag then s else old(status)[j]
        invariant forall j :: i <= j < |status| ==> status[j] == old(status)[j]
      {
        if s.tag == status[i].tag {
          status := status[i := s];
        }
      }
    }

    /** One completed check of probe `p`: its outcome is recorded under `p`'s name. */
    method Observe(p: Probe, outcome: Exchange, now: Time, names: map<int, string>)
      requires Valid()
      modifies this
      ensures Valid()
      ensures probes == old(probes)
      ensures status == Replaced(old(status), Record(p.name, outcome, now, names))
    {
      SetStatus(Record(p.name, outcome, now, names));
    }
  }
}

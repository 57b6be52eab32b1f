/**
 * Probe definitions and their normalisation (healthz/config.go): the target
 * address with the DNS port filled in, the question to ask, and the timeout
 * and check interval with their defaults.
 */
module Config {
  import opened Wrappers
  import Strings

  /** `time.Duration`: a signed count of nanoseconds. */
  type Duration = int

  const Second: Duration := 1_000_000_000

  /** The question asked when a probe names none: name, then type. */
  const DefaultQuery: seq<string> := ["www.google.com", "A"]
  const DefaultCheckInterval: Duration := 10 * Second
  const DefaultDialTimeout: Duration := 5 * Second

  /** The DNS class for the Internet (section 3.2.4 of RFC 1035). */
  const ClassINET: int := 1

  /** One probe as configured; every field is the raw text. */
  datatype Probe = Probe(
    name: string,
    address: string,
    query: string,
    timeout: string,
    checkInterval: string)

  /** A DNS question: owner name, type code and class code. */
  datatype Question = Question(name: string, qtype: int, qclass: int)

  /** The part of an outgoing `dns.Msg` the probe sets up. */
  datatype Msg = Msg(recursionDesired: bool, question: seq<Question>)

  /**
   * `Probe.GetAddress`: the address as given when it has a colon, otherwise the
   * address with the DNS port 53 (section 4.2 of RFC 1035) appended.
   */
  function GetAddress(p: Probe): (addr: string)
    ensures ':' in p.address ==> addr == p.address
    ensures ':' !in p.address ==> addr == p.address + ":53"
    ensures ':' in addr
  {
    var bits := Strings.SplitFirst(p.address, ':');
    if |bits| == 2 then p.address
    else
      var addr := bits[0] + ":53";
      assert addr[|addr| - 3] == ':';
      addr
  }

  /** Normalising an already normalised address changes nothing. */
  lemma GetAddressIdempotent(p: Probe)
    ensures GetAddress(p.(address := GetAddress(p))) == GetAddress(p)
  {
  }

  /** `dns.IsFqdn`, without escaped dots: the name ends with a dot. */
  predicate IsFqdn(s: string) {
    |s| > 0 && s[|s| - 1] == '.'
  }

  /** `dns.Fqdn`: a name made fully qualified (section 3.1 of RFC 1034). */
  function Fqdn(s: string): (r: string)
    ensures IsFqdn(r)
    ensures IsFqdn(s) ==> r == s
    ensures !IsFqdn(s) ==> r == s + "."
  {
    if IsFqdn(s) then s else s + "."
  }

  /** A Go map lookup in `dns.StringToType`: an unknown type name reads as 0. */
  function TypeCode(types: map<string, int>, name: string): int {
    if name in types then types[name] else 0
  }

  /**
   * The name/type pair `GetQuery` builds on its own copy of `DefaultQuery`: an
   * empty query keeps both defaults; otherwise the text up to the first comma
   * replaces the name and, when there is a comma, all the rest replaces the type.
   */
  function QueryPair(p: Probe): (q: seq<string>)
    ensures |q| == 2
    ensures p.query == "" ==> q == DefaultQuery
    ensures p.query != "" && ',' !in p.query ==> q == [p.query, DefaultQuery[1]]
    ensures p.query != "" && ',' in p.query ==> ',' !in q[0] && p.query == q[0] + "," + q[1]
  {
    var q := DefaultQuery;
    if p.query == "" then q
    else
      var bits := Strings.SplitFirst(p.query, ',');
      var q := q[0 := bits[0]];
      if |bits| == 2 then q[1 := bits[1]] else q
  }

  /**
   * `Probe.GetQuery`: a recursive query with one Internet-class question whose
   * name is the configured name made fully qualified and whose type is the
   * code `types` gives the configured type name.
   */
  function GetQuery(p: Probe, types: map<string, int>): (m: Msg)
    ensures m.recursionDesired && |m.question| == 1
    ensures m.question[0].qclass == ClassINET && IsFqdn(m.question[0].name)
    ensures p.query == "" ==>
      m.question[0].name == "www.google.com." && m.question[0].qtype == TypeCode(types, "A")
    ensures p.query != "" && ',' !in p.query ==>
      m.question[0].name == Fqdn(p.query) && m.question[0].qtype == TypeCode(types, "A")
    ensures p.query != "" && ',' in p.query ==>
      exists i :: 0 <= i < |p.query| && p.query[i] == ',' && ',' !in p.query[..i]
        && m.question[0].name == Fqdn(p.query[..i])
        && m.question[0].qtype == TypeCode(types, p.query[i + 1..])
  {
    var q := QueryPair(p);
    var m := Msg(true, [Question(Fqdn(q[0]), TypeCode(types, q[1]), ClassINET)]);
    if p.query != "" && ',' in p.query then
      var i := |q[0]|;
      assert p.query[i] == ',' && p.query[..i] == q[0] && p.query[i + 1..] == q[1];
      m
    else
      m
  }

  /**
   * Two probes whose query texts differ only after the first comma ask for the
   * same name: the comma splits once, from the left.
   */
  lemma {:induction false} QueryNameIgnoresType(p: Probe, t1: string, t2: string, types: map<string, int>)
    requires ',' !in p.query
    ensures GetQuery(p.(query := p.query + "," + t1), types).question[0].name
         == GetQuery(p.(query := p.query + "," + t2), types).question[0].name
         == Fqdn(p.query)
  {
    var q1 := p.query + "," + t1;
    assert Strings.IndexOf(q1, ',') == |p.query| by {
      assert q1[|p.query|] == ',';
      assert forall j :: 0 <= j < |p.query| ==> q1[j] == p.query[j];
    }
    var q2 := p.query + "," + t2;
    assert Strings.IndexOf(q2, ',') == |p.query| by {
      assert q2[|p.query|] == ',';
      assert forall j :: 0 <= j < |p.query| ==> q2[j] == p.query[j];
    }
    assert q1[..|p.query|] == p.query == q2[..|p.query|];
  }

  /** `Probe.GetTimeout`: the parsed timeout, or 5s when `parse` rejects the text. */
  function GetTimeout(p: Probe, parse: string -> Option<Duration>): (d: Duration)
    ensures parse(p.timeout).Some? ==> d == parse(p.timeout).value
    ensures parse(p.timeout).None? ==> d == 5 * Second
  {
    match parse(p.timeout)
    case Some(t) => t
    case None => DefaultDialTimeout
  }

  /** `Probe.GetInterval`: the parsed interval, or 10s when `parse` rejects the text. */
  function GetInterval(p: Probe, parse: string -> Option<Duration>): (d: Duration)
    ensures parse(p.checkInterval).Some? ==> d == parse(p.checkInterval).value
    ensures parse(p.checkInterval).None? ==> d == 10 * Second
  {
    match parse(p.checkInterval)
    case Some(t) => t
    case None => DefaultCheckInterval
  }
}

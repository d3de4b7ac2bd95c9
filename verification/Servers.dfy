/** `Servers::parse` and the `host:port` form it reads. */
module Servers {
  import opened Wrappers
  import opened Text
  import opened Decimal

  datatype Operator = Ecc | YWallet | ZecRocks

  const PORTS: nat := 0x1_0000

  type Port = n: nat | n < PORTS

  datatype Server = Server(host: string, port: Port)

  datatype Servers = Hosted(operator: Operator) | Custom(servers: seq<Server>)

  datatype ParseError = NotAServerList

  const COMMA: char := ','
  const COLON: char := ':'

  /** One entry: the text after the last colon is the port. */
  function ParseServer(sub: string): Option<Server> {
    var i := AfterLast(sub, COLON);
    if i == 0 then None
    else match ParseUnsigned(sub[i..], PORTS)
      case None => None
      case Some(port) => Some(Server(sub[..i - 1], port))
  }

  /** All entries, or nothing if one of them is not `host:port`. */
  function ParseAll(subs: seq<string>): Option<seq<Server>> {
    if subs == [] then Some([])
    else match (ParseServer(subs[0]), ParseAll(subs[1..]))
      case (Some(server), Some(rest)) => Some([server] + rest)
      case _ => None
  }

  function Parse(s: string): Result<Servers, ParseError> {
    if s == "ecc" then Ok(Hosted(Ecc))
    else if s == "ywallet" then Ok(Hosted(YWallet))
    else if s == "zecrocks" then Ok(Hosted(ZecRocks))
    else match ParseAll(Split(s, COMMA))
      case Some(servers) => Ok(Custom(servers))
      case None => Err(NotAServerList)
  }

  function Display(server: Server): string {
    server.host + [COLON] + Print(server.port)
  }

  function DisplayEach(servers: seq<Server>): (r: seq<string>)
    ensures |r| == |servers| && forall i | 0 <= i < |servers| :: r[i] == Display(servers[i])
  {
    seq(|servers|, i requires 0 <= i < |servers| => Display(servers[i]))
  }

  function DisplayAll(servers: seq<Server>): string {
    Join(DisplayEach(servers), COMMA)
  }

  ghost predicate HostsCommaFree(servers: seq<Server>) {
    forall i | 0 <= i < |servers| :: Free(servers[i].host, COMMA)
  }

  lemma DisplayParses(server: Server)
    requires Free(server.host, COMMA)
    ensures ParseServer(Display(server)) == Some(server) && Free(Display(server), COMMA)
  {
    var port := Print(server.port);
    assert Free(port, COLON) && Free(port, COMMA) by {
      assert forall i | 0 <= i < |port| :: IsDigit(port[i]);
    }
    FreeSuffix(server.host, COLON, port);
    var sub, at := Display(server), |server.host|;
    assert sub[..at] == server.host && sub[at + 1..] == port;
    ParseOfPrint(server.port, PORTS);
  }

  lemma {:induction false} EntriesParse(subs: seq<string>, servers: seq<Server>)
    requires |subs| == |servers| && HostsCommaFree(servers)
    requires forall i | 0 <= i < |servers| :: subs[i] == Display(servers[i])
    ensures ParseAll(subs) == Some(servers)
  {
    if servers != [] {
      DisplayParses(servers[0]);
      EntriesParse(subs[1..], servers[1..]);
      assert [servers[0]] + servers[1..] == servers;
    }
  }

  lemma {:induction false} ParsedHostsFree(subs: seq<string>)
    requires AllFree(subs, COMMA) && ParseAll(subs).Some?
    ensures |ParseAll(subs).value| == |subs| && HostsCommaFree(ParseAll(subs).value)
  {
    if subs != [] {
      ParsedHostsFree(subs[1..]);
      assert Free(subs[0], COMMA);
    }
  }

  /** A printed entry holds a colon, so no list is mistaken for an operator. */
  lemma ListIsNoOperator(servers: seq<Server>)
    requires servers != []
    ensures DisplayAll(servers) !in {"ecc", "ywallet", "zecrocks"}
  {
    var s, at := DisplayAll(servers), |servers[0].host|;
    assert Display(servers[0])[at] == COLON;
    assert s[at] == COLON;
    assert Free("ecc", COLON) && Free("ywallet", COLON) && Free("zecrocks", COLON);
  }

  lemma DisplayedListParses(servers: seq<Server>)
    requires servers != [] && HostsCommaFree(servers)
    ensures Parse(DisplayAll(servers)) == Ok(Custom(servers))
  {
    var subs := DisplayEach(servers);
    forall i | 0 <= i < |servers| ensures Free(subs[i], COMMA) { DisplayParses(servers[i]); }
    SplitOfJoin(subs, COMMA);
    EntriesParse(subs, servers);
    ListIsNoOperator(servers);
  }

  /** What parsing accepts as a list is non-empty with comma-free hosts. */
  lemma AcceptedList(s: string)
    requires Parse(s).Ok? && Parse(s).value.Custom?
    ensures Parse(s).value.servers != [] && HostsCommaFree(Parse(s).value.servers)
  {
    SplitPartsFree(s, COMMA);
    ParsedHostsFree(Split(s, COMMA));
  }

  /** Parsing gives a printed list back exactly when the list is non-empty and no
      host holds a comma; colons in hosts are harmless. */
  lemma ParseUndoesDisplay(servers: seq<Server>)
    ensures Parse(DisplayAll(servers)) == Ok(Custom(servers))
       <==> servers != [] && HostsCommaFree(servers)
  {
    if servers != [] && HostsCommaFree(servers) {
      DisplayedListParses(servers);
    } else if Parse(DisplayAll(servers)) == Ok(Custom(servers)) {
      AcceptedList(DisplayAll(servers));
    }
  }

  /** An accepted list is never empty, so picking its first entry cannot fail,
      and printing it gives a text that means the same list. */
  lemma AcceptedListReprints(s: string)
    requires Parse(s).Ok? && Parse(s).value.Custom?
    ensures Parse(s).value.servers != []
    ensures Parse(DisplayAll(Parse(s).value.servers)) == Parse(s)
  {
    AcceptedList(s);
    DisplayedListParses(Parse(s).value.servers);
  }

  // ----- Which texts mean what -----

  /** The three operators have a name each, and nothing else names them. */
  lemma OperatorNames(s: string)
    ensures Parse(s) == Ok(Hosted(Ecc)) <==> s == "ecc"
    ensures Parse(s) == Ok(Hosted(YWallet)) <==> s == "ywallet"
    ensures Parse(s) == Ok(Hosted(ZecRocks)) <==> s == "zecrocks"
  {
  }

  lemma LastColon(sub: string, host: string, digits: string)
    requires sub == host + ":" + digits && Free(digits, ':')
    ensures AfterLast(sub, COLON) == |host| + 1 && sub[..|host|] == host && sub[|host| + 1..] == digits
  {
    FreeSuffix(host, ':', digits);
  }

  lemma NumberHasNoColon(digits: string, limit: nat)
    requires ParseUnsigned(digits, limit).Some?
    ensures Free(digits, ':')
  {
    assert AllDigits(Unsigned(digits));
    assert forall i | 0 <= i < |digits| :: i == 0 || digits[i] == digits[1..][i - 1];
  }

  lemma EntryParses(sub: string, host: string, digits: string, port: Port)
    requires sub == host + ":" + digits && ParseUnsigned(digits, 65536) == Some(port)
    ensures ParseServer(sub) == Some(Server(host, port))
  {
    NumberHasNoColon(digits, 65536);
    LastColon(sub, host, digits);
  }

  lemma ParsedEntry(sub: string) returns (digits: string)
    requires ParseServer(sub).Some?
    ensures var server := ParseServer(sub).value;
            sub == server.host + ":" + digits && ParseUnsigned(digits, 65536) == Some(server.port)
  {
    var i := AfterLast(sub, COLON);
    digits := sub[i..];
    assert sub == sub[..i - 1] + ":" + sub[i..];
  }

  /** One entry is a host, a colon and a port below 65536, which may carry a plus and
      leading zeros; the host may hold colons, or be empty. */
  lemma EntryIs(sub: string, host: string, port: Port)
    ensures ParseServer(sub) == Some(Server(host, port)) <==>
              exists digits :: sub == host + ":" + digits && ParseUnsigned(digits, 65536) == Some(port)
  {
    if ParseServer(sub).Some? { var digits := ParsedEntry(sub); }
    if digits :| sub == host + ":" + digits && ParseUnsigned(digits, 65536) == Some(port) {
      EntryParses(sub, host, digits, port);
    }
  }

  lemma {:induction false} RefusedIff(subs: seq<string>)
    ensures ParseAll(subs).None? <==> exists i :: 0 <= i < |subs| && ParseServer(subs[i]).None?
  {
    if subs != [] {
      RefusedIff(subs[1..]);
      if i :| 0 <= i < |subs[1..]| && ParseServer(subs[1..][i]).None? { assert ParseServer(subs[i + 1]).None?; }
      if i :| 0 <= i < |subs| && ParseServer(subs[i]).None? {
        assert i == 0 || ParseServer(subs[1..][i - 1]).None?;
      }
    }
  }

  lemma {:induction false} EntryForEntry(subs: seq<string>, i: nat)
    requires ParseAll(subs).Some? && i < |subs|
    ensures |ParseAll(subs).value| == |subs| && ParseServer(subs[i]) == Some(ParseAll(subs).value[i])
  {
    if |subs| > 1 { EntryForEntry(subs[1..], if i == 0 then 0 else i - 1); }
  }

  /** A text that names no operator is a list, entry for entry, and is refused exactly
      when some entry is not one. */
  lemma ListIs(s: string)
    requires s !in {"ecc", "ywallet", "zecrocks"}
    ensures var subs := Split(s, ',');
            Parse(s).Err? <==> exists i :: 0 <= i < |subs| && ParseServer(subs[i]).None?
    ensures var subs := Split(s, ',');
            Parse(s).Ok? ==>
              && Parse(s).value.Custom? && |Parse(s).value.servers| == |subs|
              && forall i | 0 <= i < |subs| :: ParseServer(subs[i]) == Some(Parse(s).value.servers[i])
  {
    var subs := Split(s, ',');
    RefusedIff(subs);
    assert Parse(s).Err? <==> ParseAll(subs).None?;
    if Parse(s).Ok? {
      forall i | 0 <= i < |subs| ensures |Parse(s).value.servers| == |subs|
                                         && ParseServer(subs[i]) == Some(Parse(s).value.servers[i])
      {
        EntryForEntry(subs, i);
      }
    }
  }
}

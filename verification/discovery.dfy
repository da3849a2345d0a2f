/**
 The device managers' device_discovered: an advertisement is accepted when the
 first three colon-separated fields of its MAC address (the vendor OUI) and its
 advertised name pass the program's filter. An accepted advertisement stops
 discovery, and connects only if no device is connected yet. Also the shape
 check of a MAC address given on the command line.
 */
module Discovery {
  import opened Options

  // ---------------------------------------------------------------------------
  // str.split(':') and ':'.join(...)
  // ---------------------------------------------------------------------------

  /** The number of times c occurs in s. */
  function Occurrences(s: string, c: char): nat
  {
    if s == [] then 0 else (if s[0] == c then 1 else 0) + Occurrences(s[1..], c)
  }

  /** Python's s.split(sep): the pieces between separators, always at least one. */
  function Split(s: string, sep: char): (r: seq<string>)
    ensures |r| == Occurrences(s, sep) + 1
    ensures forall i :: 0 <= i < |r| ==> sep !in r[i]
  {
    if s == [] then [[]]
    else
      var rest := Split(s[1..], sep);
      if s[0] == sep then [[]] + rest
      else [[s[0]] + rest[0]] + rest[1..]
  }

  /** Python's sep.join(fields) for a non-empty list. */
  function Join(fields: seq<string>, sep: char): string
    requires |fields| >= 1
  {
    if |fields| == 1 then fields[0] else fields[0] + [sep] + Join(fields[1..], sep)
  }

  /** Joining the pieces of a split gives the string back. */
  lemma {:induction false} JoinSplit(s: string, sep: char)
    ensures Join(Split(s, sep), sep) == s
  {
    if s != [] {
      var rest := Split(s[1..], sep);
      JoinSplit(s[1..], sep);
      if s[0] == sep {
        assert ([[]] + rest)[1..] == rest;
      } else {
        var r := [[s[0]] + rest[0]] + rest[1..];
        if |rest| == 1 {
          assert r == [[s[0]] + rest[0]];
        } else {
          assert r[1..] == rest[1..];
          assert Join(rest, sep) == rest[0] + [sep] + Join(rest[1..], sep);
        }
      }
    }
  }

  /** Joining the first k pieces gives a prefix of joining them all. */
  lemma {:induction false} JoinPrefix(fields: seq<string>, sep: char, k: nat)
    requires 1 <= k <= |fields|
    ensures Join(fields[..k], sep) <= Join(fields, sep)
  {
    if k == 1 {
      assert fields[..1] == [fields[0]];
      if |fields| > 1 {
        PrefixOfConcat(fields[0], [sep] + Join(fields[1..], sep));
        assert Join(fields, sep) == fields[0] + ([sep] + Join(fields[1..], sep));
      }
    } else if k < |fields| {
      JoinPrefix(fields[1..], sep, k - 1);
      assert fields[..k][1..] == fields[1..][..k - 1];
      var head := fields[0] + [sep];
      PrefixExtends(head, Join(fields[1..][..k - 1], sep), Join(fields[1..], sep));
    } else {
      assert fields[..k] == fields;
    }
  }

  lemma PrefixOfConcat(a: string, b: string)
    ensures a <= a + b
  {
    assert (a + b)[..|a|] == a;
  }

  lemma PrefixExtends(a: string, x: string, y: string)
    requires x <= y
    ensures a + x <= a + y
  {
    assert (a + y)[..|a + x|] == a + x;
  }

  /** Splitting at the first separator: the piece before it, then the split of the rest. */
  lemma {:induction false} SplitAtSeparator(x: string, sep: char, y: string)
    requires sep !in x
    ensures Split(x + [sep] + y, sep) == [x] + Split(y, sep)
  {
    if x == [] {
      assert x + [sep] + y == [sep] + y;
      assert ([sep] + y)[1..] == y;
    } else {
      SplitAtSeparator(x[1..], sep, y);
      assert (x + [sep] + y)[1..] == x[1..] + [sep] + y;
      assert [x[0]] + x[1..] == x;
    }
  }

  /** The OUI of an address with at least three separators is its first three fields. */
  lemma OuiOfFields(a: string, b: string, c: string, rest: string)
    requires ':' !in a && ':' !in b && ':' !in c
    ensures Oui(a + ":" + b + ":" + c + ":" + rest) == a + ":" + b + ":" + c
  {
    var mac := a + [':'] + (b + [':'] + (c + [':'] + rest));
    assert a + ":" + b + ":" + c + ":" + rest == mac;
    FirstThreeFields(a, b, c, rest);
    JoinThree(a, b, c);
  }

  lemma FirstThreeFields(a: string, b: string, c: string, rest: string)
    requires ':' !in a && ':' !in b && ':' !in c
    ensures var fields := Split(a + [':'] + (b + [':'] + (c + [':'] + rest)), ':');
            |fields| >= 3 && fields[..3] == [a, b, c]
  {
    var r3 := c + [':'] + rest;
    var r2 := b + [':'] + r3;
    SplitAtSeparator(c, ':', rest);
    SplitAtSeparator(b, ':', r3);
    SplitAtSeparator(a, ':', r2);
    var fields := Split(a + [':'] + r2, ':');
    assert fields == [a] + ([b] + ([c] + Split(rest, ':')));
  }

  lemma JoinThree(a: string, b: string, c: string)
    ensures Join([a, b, c], ':') == a + ":" + b + ":" + c
  {
    assert [a, b, c][1..] == [b, c];
    assert [b, c][1..] == [c];
    assert Join([c], ':') == c;
    assert Join([b, c], ':') == b + [':'] + c;
    assert Join([a, b, c], ':') == a + [':'] + (b + [':'] + c);
  }

  /** ':'.join(mac.split(':')[0:3]): the first three fields; the slice stops early on a
      shorter address. */
  function Oui(mac: string): (o: string)
    ensures o <= mac
  {
    var fields := Split(mac, ':');
    JoinSplit(mac, ':');
    JoinPrefix(fields, ':', if |fields| < 3 then |fields| else 3);
    Join(fields[..if |fields| < 3 then |fields| else 3], ':')
  }

  /** str.lower() on ASCII letters. */
  function Lower(s: string): (r: string)
    ensures |r| == |s|
    ensures forall i :: 0 <= i < |s| ==> r[i] == (if 'A' <= s[i] <= 'Z' then (s[i] as int + 32) as char else s[i])
  {
    if s == [] then [] else [if 'A' <= s[0] <= 'Z' then (s[0] as int + 32) as char else s[0]] + Lower(s[1..])
  }

  // ---------------------------------------------------------------------------
  // The filters
  // ---------------------------------------------------------------------------

  /** Exact: some (OUI, name) pair matches character for character. Lowered: the
      lower-cased OUI is in one list and the name in another. */
  datatype Filter =
    | Exact(pairs: seq<(string, string)>)
    | Lowered(ouis: seq<string>, names: seq<string>)

  predicate Accepts(f: Filter, mac: string, name: string)
  {
    match f
    case Exact(pairs) => (Oui(mac), name) in pairs
    case Lowered(ouis, names) => Lower(Oui(mac)) in ouis && name in names
  }

  const WeDoHub := ("a0:e6:f8", "LPF2 Smart Hub 2 I/O")
  const SmartController := ("10:45:f8", "BT Smart Controller")
  const ControlReceiver := ("10:45:f8", "BT Control Receiver")
  const MoveHub := ("00:16:53", "LEGO Move Hub")

  /** charakteristiken.py: the four toys. */
  const Toys := Exact([WeDoHub, SmartController, ControlReceiver, MoveHub])
  /** lego_dino.py, ft_karussell.py, ft_rc_racer.py, lego_boost_color_echo.py. */
  const Dino := Exact([WeDoHub])
  const Carousel := Exact([SmartController])
  const Racer := Exact([ControlReceiver])
  const ColorEcho := Exact([MoveHub])
  /** lego_hub_monitor.py and lego_boost_monitor.py. */
  const HubMonitor := Lowered(["00:16:53", "90:84:2b"], ["LEGO Move Hub", "HUB NO.4", "Technic Hub", "Smart Hub"])
  const BoostMonitor := Lowered(["00:16:53", "90:84:2b"], ["LEGO Move Hub", "HUB NO.4"])

  /** The toy filter accepts exactly what one of the four single-device programs accepts. */
  lemma ToysAreTheFourPrograms(mac: string, name: string)
    ensures Accepts(Toys, mac, name) <==>
              Accepts(Dino, mac, name) || Accepts(Carousel, mac, name)
              || Accepts(Racer, mac, name) || Accepts(ColorEcho, mac, name)
    ensures Accepts(Toys, mac, name) <==>
              (Oui(mac) == "a0:e6:f8" && name == "LPF2 Smart Hub 2 I/O")
              || (Oui(mac) == "10:45:f8" && (name == "BT Smart Controller" || name == "BT Control Receiver"))
              || (Oui(mac) == "00:16:53" && name == "LEGO Move Hub")
  {
  }

  /** Whatever the Boost monitor accepts, the hub monitor accepts too. */
  lemma BoostMonitorWithinHubMonitor(mac: string, name: string)
    requires Accepts(BoostMonitor, mac, name)
    ensures Accepts(HubMonitor, mac, name)
  {
  }

  /** The colour echo's Move Hub is also found by both monitors. */
  lemma MoveHubFoundByMonitors(mac: string, name: string)
    requires Accepts(ColorEcho, mac, name)
    ensures Accepts(HubMonitor, mac, name) && Accepts(BoostMonitor, mac, name)
  {
    assert Oui(mac) == "00:16:53";
    assert Lower("00:16:53") == "00:16:53";
  }

  /** The monitors lower-case the OUI before comparing: an upper-case Technic hub
      address is found. */
  lemma MonitorIgnoresCase(upper: string)
    requires upper == "90:84:2B:12:34:56"
    ensures Accepts(HubMonitor, upper, "Technic Hub")
  {
    var oui := Oui(upper);
    TechnicOui(upper);
    LowerTechnicOui(oui);
    assert Lower(oui) == HubMonitor.ouis[1];
    assert "Technic Hub" == HubMonitor.names[2];
  }

  lemma TechnicOui(upper: string)
    requires upper == "90:84:2B:12:34:56"
    ensures Oui(upper) == "90:84:2B"
  {
    OuiOfFields("90", "84", "2B", "12:34:56");
    assert upper == "90" + ":" + "84" + ":" + "2B" + ":" + "12:34:56";
  }

  lemma LowerTechnicOui(oui: string)
    requires oui == "90:84:2B"
    ensures Lower(oui) == "90:84:2b"
  {
  }

  /** The toy filter compares case-sensitively: an address starting with an upper-case
      letter is refused, whatever the name. */
  lemma ToysRespectCase(mac: string, name: string)
    requires |mac| >= 1 && 'A' <= mac[0] <= 'Z'
    ensures !Accepts(Toys, mac, name)
  {
    var o := Oui(mac);
    assert o <= mac;
    if |o| >= 1 {
      assert o[0] == mac[0];
    }
  }

  /** ... and refuses a lower-cased name. */
  lemma ToysRespectNameCase(mac: string)
    ensures !Accepts(Toys, mac, "lego move hub")
  {
  }

  // ---------------------------------------------------------------------------
  // Connect once
  // ---------------------------------------------------------------------------

  /** connected_device (None until the first accepted advertisement) and whether
      discovery is still running. */
  datatype Manager = Manager(connected: Option<string>, discovering: bool)

  const Searching := Manager(None, true)

  datatype Advert = Advert(mac: string, name: string)

  /** The manager afterwards, and the addresses connect() was called for. */
  datatype Found = Found(manager: Manager, connects: seq<string>)

  /** device_discovered. */
  function Discovered(f: Filter, m: Manager, a: Advert): (r: Found)
    ensures !Accepts(f, a.mac, a.name) ==> r == Found(m, [])
    ensures Accepts(f, a.mac, a.name) ==> !r.manager.discovering
    ensures m.connected.Some? ==> r.manager.connected == m.connected && r.connects == []
    ensures r.connects != [] <==> Accepts(f, a.mac, a.name) && m.connected.None?
  {
    if !Accepts(f, a.mac, a.name) then Found(m, [])
    else if m.connected.Some? then Found(Manager(m.connected, false), [])
    else Found(Manager(Some(a.mac), false), [a.mac])
  }

  function Replay(f: Filter, m: Manager, ads: seq<Advert>): Found
  {
    if ads == [] then Found(m, [])
    else
      var prev := Replay(f, m, ads[..|ads| - 1]);
      var r := Discovered(f, prev.manager, ads[|ads| - 1]);
      Found(r.manager, prev.connects + r.connects)
  }

  /** The address of the first accepted advertisement. */
  function FirstAccepted(f: Filter, ads: seq<Advert>): Option<string>
  {
    if ads == [] then None
    else
      match FirstAccepted(f, ads[..|ads| - 1])
      case Some(mac) => Some(mac)
      case None => if Accepts(f, ads[|ads| - 1].mac, ads[|ads| - 1].name) then Some(ads[|ads| - 1].mac) else None
  }

  /** Whatever advertisements arrive, connect() is called at most once, for the first
      accepted one, and the connected device never changes afterwards. */
  lemma {:induction false} ConnectsOnce(f: Filter, ads: seq<Advert>)
    ensures Replay(f, Searching, ads).manager.connected == FirstAccepted(f, ads)
    ensures Replay(f, Searching, ads).connects ==
              (match FirstAccepted(f, ads) case None => [] case Some(mac) => [mac])
  {
    if ads != [] {
      ConnectsOnce(f, ads[..|ads| - 1]);
    }
  }

  /** Discovery keeps running exactly until the first accepted advertisement. */
  lemma {:induction false} DiscoveryStops(f: Filter, ads: seq<Advert>)
    ensures Replay(f, Searching, ads).manager.discovering <==> FirstAccepted(f, ads).None?
  {
    if ads != [] {
      DiscoveryStops(f, ads[..|ads| - 1]);
      ConnectsOnce(f, ads[..|ads| - 1]);
    }
  }

  // ---------------------------------------------------------------------------
  // The command-line address
  // ---------------------------------------------------------------------------

  /** len(argv[1].split(':')) != 6 rejects the argument. */
  predicate MacArgument(s: string)
  {
    |Split(s, ':')| == 6
  }

  /** The check is about shape only: exactly five colons, whatever lies between them. */
  lemma MacArgumentShape(s: string)
    ensures MacArgument(s) <==> Occurrences(s, ':') == 5
  {
  }

  /** Splitting a join of colon-free fields gives the fields back. */
  lemma {:induction false} SplitJoin(fields: seq<string>, sep: char)
    requires |fields| >= 1 && forall i :: 0 <= i < |fields| ==> sep !in fields[i]
    ensures Split(Join(fields, sep), sep) == fields
  {
    if |fields| == 1 {
      NoSeparatorOnePiece(fields[0], sep);
    } else {
      SplitJoin(fields[1..], sep);
      SplitAtSeparator(fields[0], sep, Join(fields[1..], sep));
      assert [fields[0]] + fields[1..] == fields;
    }
  }

  lemma {:induction false} NoSeparatorOnePiece(x: string, sep: char)
    requires sep !in x
    ensures Split(x, sep) == [x]
  {
    if x != [] {
      NoSeparatorOnePiece(x[1..], sep);
      assert [x[0]] + x[1..] == x;
    }
  }

  /** An address built from colon-free fields passes the check exactly when there are six. */
  lemma MacArgumentFields(fields: seq<string>)
    requires |fields| >= 1 && forall i :: 0 <= i < |fields| ==> ':' !in fields[i]
    ensures MacArgument(Join(fields, ':')) <==> |fields| == 6
  {
    SplitJoin(fields, ':');
  }
}

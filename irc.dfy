/** The CTCP and DCC SSEND text codec of internal/irc/irc.go. Go strings are byte strings; here a
    `string` is read as one character per byte. */
module Irc {
  import Decimal

  /** The CTCP delimiter, byte 0x01. */
  const Soh: char := 1 as char

  const SsendPrefix: string := "SSEND "

  predicate HasPrefix(s: string, prefix: string)
  {
    |prefix| <= |s| && s[..|prefix|] == prefix
  }

  predicate NoSpace(s: string)
  {
    forall i :: 0 <= i < |s| ==> s[i] != ' '
  }

  // ---------------------------------------------------------------------------------------------
  // The string helpers the codec uses: strings.Index(s, " "), strings.Split(s, " "), ToUpper

  /** Where the first space of `s` is, or |s| when there is none. */
  function SpaceAt(s: string): (i: nat)
    ensures i <= |s| && NoSpace(s[..i])
    ensures i < |s| ==> s[i] == ' '
  {
    if s == [] then 0
    else if s[0] == ' ' then 0
    else
      var j := SpaceAt(s[1..]);
      assert s[1..][..j] == s[1..j + 1];
      1 + j
  }

  lemma SpaceAtNone(s: string)
    requires NoSpace(s)
    ensures SpaceAt(s) == |s|
  {
  }

  /** Text followed by a space: the first space is the one after the text. */
  lemma {:induction false} SpaceAtJoin(a: string, b: string)
    requires NoSpace(a)
    ensures SpaceAt(a + " " + b) == |a|
  {
    if a != [] {
      assert (a + " " + b)[1..] == a[1..] + " " + b;
      SpaceAtJoin(a[1..], b);
    }
  }

  /** `strings.Split(s, " ")`: the fields between single spaces, empty ones included. */
  function Split(s: string): (fields: seq<string>)
    ensures |fields| >= 1
    ensures forall k :: 0 <= k < |fields| ==> NoSpace(fields[k])
    decreases |s|
  {
    var i := SpaceAt(s);
    if i == |s| then [s] else [s[..i]] + Split(s[i + 1..])
  }

  /** `strings.Join(fields, " ")`. */
  function Join(fields: seq<string>): (r: string)
    requires |fields| >= 1
  {
    if |fields| == 1 then fields[0] else fields[0] + " " + Join(fields[1..])
  }

  /** Splitting text that starts with a space-free field. */
  lemma SplitField(a: string, b: string)
    requires NoSpace(a)
    ensures Split(a + " " + b) == [a] + Split(b)
  {
    SpaceAtJoin(a, b);
    var s := a + " " + b;
    assert s[..|a|] == a && s[|a| + 1..] == b;
  }

  /** Split undoes Join when no field holds a space. */
  lemma {:induction false} SplitJoin(fields: seq<string>)
    requires |fields| >= 1
    requires forall k :: 0 <= k < |fields| ==> NoSpace(fields[k])
    ensures Split(Join(fields)) == fields
    decreases |fields|
  {
    if |fields| == 1 {
      SpaceAtNone(fields[0]);
    } else {
      var t := fields[1..];
      assert forall k :: 0 <= k < |t| ==> NoSpace(t[k]) by {
        forall k | 0 <= k < |t| ensures NoSpace(t[k]) {
          assert t[k] == fields[k + 1];
        }
      }
      assert Join(fields) == fields[0] + " " + Join(t);
      SplitField(fields[0], Join(t));
      SplitJoin(t);
      assert [fields[0]] + t == fields;
    }
  }

  /** Join undoes Split: no text is lost. */
  lemma {:induction false} JoinSplit(s: string)
    ensures Join(Split(s)) == s
    decreases |s|
  {
    var i := SpaceAt(s);
    if i < |s| {
      var t := s[i + 1..];
      JoinSplit(t);
      JoinCons(s[..i], Split(t));
      assert s == s[..i] + " " + t;
    } else {
      assert Split(s) == [s];
    }
  }

  lemma JoinCons(a: string, fields: seq<string>)
    requires |fields| >= 1
    ensures Join([a] + fields) == a + " " + Join(fields)
  {
    assert ([a] + fields)[1..] == fields;
  }

  /** ASCII upper-casing of one byte. */
  function UpperChar(c: char): char
  {
    if 'a' <= c <= 'z' then (c as int - 32) as char else c
  }

  /** `strings.ToUpper` on ASCII text. */
  function ToUpper(s: string): (r: string)
    ensures |r| == |s|
    ensures forall i :: 0 <= i < |s| ==> r[i] == UpperChar(s[i])
  {
    if s == [] then [] else [UpperChar(s[0])] + ToUpper(s[1..])
  }

  /** Upper-casing is idempotent. */
  lemma ToUpperIdempotent(s: string)
    ensures ToUpper(ToUpper(s)) == ToUpper(s)
  {
  }

  // ---------------------------------------------------------------------------------------------
  // CTCP

  /** `ParseCTCP`'s three results. */
  datatype Ctcp = Ctcp(cmd: string, rest: string, ok: bool)

  /** `ParseCTCP`: a message framed by 0x01 bytes splits, at its first space, into an upper-cased
      command and the rest. */
  function ParseCTCP(msg: string): (r: Ctcp)
    ensures r.ok <==> |msg| >= 2 && msg[0] == Soh && msg[|msg| - 1] == Soh
    ensures !r.ok ==> r == Ctcp("", "", false)
    ensures r.ok ==> var inner := msg[1..|msg| - 1];
              (NoSpace(inner) ==> r.cmd == ToUpper(inner) && r.rest == "") &&
              (!NoSpace(inner) ==>
                 exists i :: 0 <= i < |inner| && inner[i] == ' ' && NoSpace(inner[..i]) &&
                             r.cmd == ToUpper(inner[..i]) && r.rest == inner[i + 1..])
  {
    if |msg| < 2 || msg[0] != Soh || msg[|msg| - 1] != Soh then Ctcp("", "", false)
    else
      var inner := msg[1..|msg| - 1];
      var i := SpaceAt(inner);
      if i == |inner| then
        assert inner[..i] == inner;
        Ctcp(ToUpper(inner), "", true)
      else
        assert inner[i] == ' ' && NoSpace(inner[..i]);
        Ctcp(ToUpper(inner[..i]), inner[i + 1..], true)
  }

  /** A command and an argument text framed as CTCP parse back to the upper-cased command and
      the argument text, whatever the argument holds. */
  lemma CtcpRoundTrip(cmd: string, rest: string)
    requires NoSpace(cmd)
    ensures ParseCTCP([Soh] + cmd + " " + rest + [Soh]) == Ctcp(ToUpper(cmd), rest, true)
  {
    var msg := [Soh] + cmd + " " + rest + [Soh];
    var inner := msg[1..|msg| - 1];
    assert inner == cmd + " " + rest;
    SpaceAtJoin(cmd, rest);
    assert inner[..|cmd|] == cmd && inner[|cmd| + 1..] == rest;
  }

  /** A CTCP message without arguments: the whole payload is the command. */
  lemma CtcpRoundTripBare(cmd: string)
    requires NoSpace(cmd)
    ensures ParseCTCP([Soh] + cmd + [Soh]) == Ctcp(ToUpper(cmd), "", true)
  {
    var msg := [Soh] + cmd + [Soh];
    assert msg[1..|msg| - 1] == cmd;
    SpaceAtNone(cmd);
  }

  /** `IsDCCSSEND`: the command is exactly DCC and the argument text starts with "SSEND ". */
  function IsDCCSSEND(cmd: string, rest: string): (b: bool)
    ensures b <==> cmd == "DCC" && |rest| >= 6 && rest[..6] == SsendPrefix
  {
    cmd == "DCC" && HasPrefix(rest, SsendPrefix)
  }

  // ---------------------------------------------------------------------------------------------
  // DCC SSEND offers

  /** `ParseDCCSSEND`'s four results. */
  datatype Offer = Offer(filename: string, host: string, port: int, ok: bool)

  const NoOffer: Offer := Offer("", "", 0, false)

  /** Whether `field` is a port `ParseDCCSSEND` accepts: Atoi reports no error and the value is
      positive. */
  predicate IsPort(field: string)
  {
    Decimal.Atoi(field).Parsed? && Decimal.Atoi(field).value > 0
  }

  /** `ParseDCCSSEND` as written: it demands at least four space-separated fields after "SSEND ",
      takes the first three as filename, host and port, and never looks at the fourth. */
  function ParseDCCSSEND(rest: string): (r: Offer)
    ensures !HasPrefix(rest, SsendPrefix) ==> r == NoOffer
    ensures HasPrefix(rest, SsendPrefix) ==>
              var fields := Split(rest[6..]);
              (r.ok <==> |fields| >= 4 && IsPort(fields[2])) &&
              (r.ok ==> r == Offer(fields[0], fields[1], Decimal.Atoi(fields[2]).value, true))
    ensures !r.ok ==> r == NoOffer
    ensures r.ok ==> r.port > 0 && NoSpace(r.filename) && NoSpace(r.host)
  {
    if !HasPrefix(rest, SsendPrefix) then NoOffer
    else
      var fields := Split(rest[6..]);
      if |fields| < 4 then NoOffer
      else if !IsPort(fields[2]) then NoOffer
      else Offer(fields[0], fields[1], Decimal.Atoi(fields[2]).value, true)
  }

  /** ParseDCCSSEND accepts only argument texts that IsDCCSSEND recognises after a DCC command. */
  lemma ParseNeedsSsend(rest: string)
    requires ParseDCCSSEND(rest).ok
    ensures IsDCCSSEND("DCC", rest)
  {
  }

  /** The argument text of an offer: "SSEND " and the fields, one space between each. */
  function OfferText(fields: seq<string>): string
    requires |fields| >= 1
  {
    SsendPrefix + Join(fields)
  }

  lemma StripPrefix(t: string)
    ensures HasPrefix(SsendPrefix + t, SsendPrefix) && (SsendPrefix + t)[6..] == t
  {
  }

  /** An offer built from space-free fields parses by the field count and the third field alone. */
  lemma ParseOfferText(fields: seq<string>)
    requires |fields| >= 1
    requires forall k :: 0 <= k < |fields| ==> NoSpace(fields[k])
    ensures ParseDCCSSEND(OfferText(fields)) ==
            if |fields| >= 4 && IsPort(fields[2]) then Offer(fields[0], fields[1], Decimal.Atoi(fields[2]).value, true)
            else NoOffer
  {
    StripPrefix(Join(fields));
    SplitJoin(fields);
  }

  lemma NoSpaceDigits(s: string)
    requires Decimal.AllDigits(s)
    ensures NoSpace(s)
  {
  }

  /** Go's text for a port is a port ParseDCCSSEND accepts, for any positive 64-bit value. */
  lemma FormattedPort(port: nat)
    requires 0 < port <= Decimal.MaxInt64
    ensures NoSpace(Decimal.FormatNat(port)) && IsPort(Decimal.FormatNat(port))
    ensures Decimal.Atoi(Decimal.FormatNat(port)).value == port
  {
    NoSpaceDigits(Decimal.FormatNat(port));
    Decimal.AtoiFormatRoundTrip(port);
  }

  /** An offer with filename, host, port and then any further fields, a size among them, parses
      back to its filename, host and port: the later fields are never looked at. */
  lemma OfferRoundTrip(filename: string, host: string, port: nat, more: seq<string>)
    requires NoSpace(filename) && NoSpace(host)
    requires 0 < port <= Decimal.MaxInt64
    requires |more| >= 1 && forall k :: 0 <= k < |more| ==> NoSpace(more[k])
    ensures ParseDCCSSEND(OfferText([filename, host, Decimal.FormatNat(port)] + more)) ==
            Offer(filename, host, port, true)
  {
    FormattedPort(port);
    var fields := [filename, host, Decimal.FormatNat(port)] + more;
    assert fields[2] == Decimal.FormatNat(port);
    ParseOfferText(fields);
  }

  /** The example of a well-formed sized offer. */
  lemma OfferExample()
    ensures ParseDCCSSEND(SsendPrefix + "report.txt 10.0.0.5 4001 2048") == Offer("report.txt", "10.0.0.5", 4001, true)
  {
    var fields := ["report.txt", "10.0.0.5", "4001", "2048"];
    assert Join(fields) == "report.txt 10.0.0.5 4001 2048";
    PortExample();
    ParseOfferText(fields);
  }

  lemma PortExample()
    ensures IsPort("4001") && Decimal.Atoi("4001").value == 4001
  {
    assert "4001"[..3] == "400" && "400"[..2] == "40" && "40"[..1] == "4" && "4"[..0] == "";
    assert Decimal.DigitsValue("4001") == 4001;
  }

  /** A port that is not a number makes the offer invalid. */
  lemma NonNumericPortExample()
    ensures ParseDCCSSEND(SsendPrefix + "x y z 1") == NoOffer
  {
    var fields := ["x", "y", "z", "1"];
    assert Join(fields) == "x y z 1";
    assert !Decimal.IsDigit("z"[0]) && !IsPort(fields[2]);
    ParseOfferText(fields);
  }

  /** Nor is a port of zero accepted. */
  lemma ZeroPortExample()
    ensures ParseDCCSSEND(SsendPrefix + "x y 0 1") == NoOffer
  {
    var fields := ["x", "y", "0", "1"];
    assert Join(fields) == "x y 0 1";
    assert "0"[..0] == "" && Decimal.DigitsValue("0") == 0 && !IsPort(fields[2]);
    ParseOfferText(fields);
  }

  /** The whole path a received offer takes: the CTCP message parses as DCC, is recognised as an
      SSEND offer, and yields its fields. */
  lemma OfferMessageRoundTrip(filename: string, host: string, port: nat, size: string)
    requires NoSpace(filename) && NoSpace(host) && NoSpace(size)
    requires 0 < port <= Decimal.MaxInt64
    ensures var text := OfferText([filename, host, Decimal.FormatNat(port), size]);
            var c := ParseCTCP([Soh] + "DCC " + text + [Soh]);
            c == Ctcp("DCC", text, true) && IsDCCSSEND(c.cmd, c.rest) &&
            ParseDCCSSEND(c.rest) == Offer(filename, host, port, true)
  {
    var text := OfferText([filename, host, Decimal.FormatNat(port), size]);
    assert [Soh] + "DCC " + text + [Soh] == [Soh] + "DCC" + " " + text + [Soh];
    CtcpRoundTrip("DCC", text);
    assert ToUpper("DCC") == "DCC";
    StripPrefix(Join([filename, host, Decimal.FormatNat(port), size]));
    assert [filename, host, Decimal.FormatNat(port)] + [size] == [filename, host, Decimal.FormatNat(port), size];
    OfferRoundTrip(filename, host, port, [size]);
  }

  // ---------------------------------------------------------------------------------------------
  // The size field: optional in the doc comment, required by the code

  /** The upload offer cmd/fileshare/main.go sends has no size field, and ParseDCCSSEND as written
      rejects it. */
  lemma SizelessOfferRejected(filename: string, host: string, port: nat)
    requires NoSpace(filename) && NoSpace(host)
    ensures ParseDCCSSEND(OfferText([filename, host, Decimal.FormatNat(port)])) == NoOffer
  {
    NoSpaceDigits(Decimal.FormatNat(port));
    ParseOfferText([filename, host, Decimal.FormatNat(port)]);
  }

  /** ParseDCCSSEND with the size optional, as its doc comment describes: three fields suffice. */
  function ParseDCCSSENDOptionalSize(rest: string): (r: Offer)
    ensures !HasPrefix(rest, SsendPrefix) ==> r == NoOffer
    ensures !r.ok ==> r == NoOffer
    ensures r.ok ==> r.port > 0 && NoSpace(r.filename) && NoSpace(r.host)
  {
    if !HasPrefix(rest, SsendPrefix) then NoOffer
    else
      var fields := Split(rest[6..]);
      if |fields| < 3 then NoOffer
      else if !IsPort(fields[2]) then NoOffer
      else Offer(fields[0], fields[1], Decimal.Atoi(fields[2]).value, true)
  }

  /** The corrected parser accepts an offer with or without further fields after the port. */
  lemma OptionalSizeRoundTrip(filename: string, host: string, port: nat, more: seq<string>)
    requires NoSpace(filename) && NoSpace(host)
    requires 0 < port <= Decimal.MaxInt64
    requires forall k :: 0 <= k < |more| ==> NoSpace(more[k])
    ensures ParseDCCSSENDOptionalSize(OfferText([filename, host, Decimal.FormatNat(port)] + more)) ==
            Offer(filename, host, port, true)
  {
    FormattedPort(port);
    var fields := [filename, host, Decimal.FormatNat(port)] + more;
    assert fields[2] == Decimal.FormatNat(port);
    StripPrefix(Join(fields));
    SplitJoin(fields);
  }

  /** The upload offer message of cmd/fileshare/main.go, end to end: it parses as a DCC SSEND
      CTCP, the parser as written rejects it, and the corrected one yields its fields. */
  lemma UploadOfferMessage(filename: string, host: string, port: nat)
    requires NoSpace(filename) && NoSpace(host)
    requires 0 < port <= Decimal.MaxInt64
    ensures var text := OfferText([filename, host, Decimal.FormatNat(port)]);
            var c := ParseCTCP([Soh] + "DCC " + text + [Soh]);
            c == Ctcp("DCC", text, true) && IsDCCSSEND(c.cmd, c.rest) &&
            ParseDCCSSEND(c.rest) == NoOffer &&
            ParseDCCSSENDOptionalSize(c.rest) == Offer(filename, host, port, true)
  {
    var text := OfferText([filename, host, Decimal.FormatNat(port)]);
    assert [Soh] + "DCC " + text + [Soh] == [Soh] + "DCC" + " " + text + [Soh];
    CtcpRoundTrip("DCC", text);
    assert ToUpper("DCC") == "DCC";
    StripPrefix(Join([filename, host, Decimal.FormatNat(port)]));
    SizelessOfferRejected(filename, host, port);
    assert [filename, host, Decimal.FormatNat(port)] + [] == [filename, host, Decimal.FormatNat(port)];
    OptionalSizeRoundTrip(filename, host, port, []);
  }

  /** Whatever the parser as written accepts, the corrected one accepts with the same fields; it
      accepts more only where exactly three fields follow "SSEND ". */
  lemma OptionalSizeExtends(rest: string)
    ensures ParseDCCSSEND(rest).ok ==> ParseDCCSSENDOptionalSize(rest) == ParseDCCSSEND(rest)
    ensures ParseDCCSSENDOptionalSize(rest) != ParseDCCSSEND(rest) ==>
              HasPrefix(rest, SsendPrefix) && |Split(rest[6..])| == 3
  {
  }
}

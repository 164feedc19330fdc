/** How a command travels in the replicated log: libpaxos tags it with node position and counter, and the
    airline server writes command number, caller, operation and arguments into it. */
module Codec {
  import opened Options
  import opened PaxosMessages
  import opened Strings

  // ---- libpaxos tags (getModifiedValue, getFromModifiedValue) ----

  function ModifiedValue(nodepos: int, counter: nat, value: string): Value {
    Itoa(nodepos) + "$$" + Itoa(counter) + "$$" + value
  }

  /** None stands for the index-out-of-range panic on a value without two separators. */
  function FromModifiedValue(m: Value): Option<string> {
    var split := Split(m, "$$");
    if |split| > 2 then Some(split[2]) else None
  }

  lemma TagIsPrefix(nodepos: int, counter: nat, value: string)
    ensures ModifiedValue(nodepos, counter, value) == Itoa(nodepos) + "$$" + (Itoa(counter) + "$$" + value)
  {
  }

  /** The fields of a tagged value: position, counter, and those of the value. */
  lemma TagFields(nodepos: int, counter: nat, value: string)
    ensures Split(ModifiedValue(nodepos, counter, value), "$$") ==
            [Itoa(nodepos)] + ([Itoa(counter)] + Split(value, "$$"))
  {
    ItoaRoundTrip(nodepos);
    ItoaRoundTrip(counter);
    TagIsPrefix(nodepos, counter, value);
    SplitFirst(Itoa(nodepos), "$$", Itoa(counter) + "$$" + value);
    SplitFirst(Itoa(counter), "$$", value);
  }

  /** What comes back is the value up to its first "$$". */
  lemma FromModified(nodepos: int, counter: nat, value: string)
    ensures FromModifiedValue(ModifiedValue(nodepos, counter, value)) == Some(Split(value, "$$")[0])
  {
    TagFields(nodepos, counter, value);
  }

  /** A tagged value comes back unchanged exactly when the command has no "$$" in it. */
  lemma ModifiedRoundTrip(nodepos: int, counter: nat, value: string)
    ensures FromModifiedValue(ModifiedValue(nodepos, counter, value)) == Some(value) <==> !Contains(value, "$$")
  {
    FromModified(nodepos, counter, value);
  }

  lemma CutUnique(a: string, b: string, sep: string, x: string, y: string)
    requires sep != "" && sep[0] !in a && sep[0] !in b
    requires a + sep + x == b + sep + y
    ensures a == b && x == y
  {
    FirstAt(a + sep + x, a, sep, x);
    FirstAt(b + sep + y, b, sep, y);
  }

  /** Two ProposeCommand calls with different node or counter never give equal tagged values. */
  lemma ModifiedInjective(p: int, c: nat, v: string, p': int, c': nat, v': string)
    ensures ModifiedValue(p, c, v) == ModifiedValue(p', c', v') <==> p == p' && c == c' && v == v'
  {
    if ModifiedValue(p, c, v) == ModifiedValue(p', c', v') {
      ItoaRoundTrip(p);
      ItoaRoundTrip(c);
      ItoaRoundTrip(p');
      ItoaRoundTrip(c');
      var t, t' := Itoa(c) + "$$" + v, Itoa(c') + "$$" + v';
      TagIsPrefix(p, c, v);
      TagIsPrefix(p', c', v');
      CutUnique(Itoa(p), Itoa(p'), "$$", t, t');
      CutUnique(Itoa(c), Itoa(c'), "$$", v, v');
    }
  }

  // ---- airline commands (CreateFlight .. Transaction, PaxosResponse) ----

  datatype Command = Command(cmdNo: int, host: string, op: string, payload: string)

  const OPERATIONS := {"CF", "GF", "GA", "TA"}

  function Encode(c: Command): string {
    Itoa(c.cmdNo) + "@" + (c.host + "@" + c.op + "@" + c.payload)
  }

  /** None stands for the index-out-of-range panic on a command with fewer than four fields. */
  function Decode(cmd: string): Option<Command> {
    var f := Split(cmd, "@");
    if |f| > 3 then Some(Command(Atoi(f[0]), f[1], f[2], f[3])) else None
  }

  /** The whole way from one airline server to PaxosResponse at another. */
  function Delivered(nodepos: int, counter: nat, c: Command): Option<Command> {
    match FromModifiedValue(ModifiedValue(nodepos, counter, Encode(c)))
    case None => None
    case Some(cmd) => Decode(cmd)
  }

  predicate Clean(s: string) {
    '@' !in s && !Contains(s, "$$")
  }

  lemma Regroup(host: string, op: string, payload: string)
    ensures host + "@" + op + "@" + payload == host + "@" + (op + "@" + payload)
  {
  }

  lemma SplitTail(host: string, op: string, payload: string)
    requires '@' !in host && '@' !in op
    ensures Split(host + "@" + op + "@" + payload, "@") == [host] + ([op] + Split(payload, "@"))
  {
    Regroup(host, op, payload);
    SplitField(op, '@', payload, Split(payload, "@"));
    SplitField(host, '@', op + "@" + payload, [op] + Split(payload, "@"));
  }

  lemma SplitFields(no: string, host: string, op: string, payload: string)
    requires '@' !in no && '@' !in host && '@' !in op
    ensures Split(no + "@" + (host + "@" + op + "@" + payload), "@") == [no] + ([host] + ([op] + Split(payload, "@")))
  {
    SplitTail(host, op, payload);
    SplitField(no, '@', host + "@" + op + "@" + payload, [host] + ([op] + Split(payload, "@")));
  }

  /** The fields of a command whose caller and operation avoid '@'. */
  lemma DecodeEncode(c: Command)
    requires '@' !in c.host && '@' !in c.op
    ensures Decode(Encode(c)) == Some(c.(payload := Split(c.payload, "@")[0]))
  {
    ItoaRoundTrip(c.cmdNo);
    SplitFields(Itoa(c.cmdNo), c.host, c.op, c.payload);
  }

  /** A command contains "$$" only inside caller or arguments. */
  lemma EncodeContains(c: Command)
    requires c.op in OPERATIONS
    ensures Contains(Encode(c), "$$") <==> Contains(c.host, "$$") || Contains(c.payload, "$$")
  {
    ItoaRoundTrip(c.cmdNo);
    NoDollarNoSeparator(Itoa(c.cmdNo));
    NoDollarNoSeparator(c.op);
    var tail := c.host + "@" + c.op + "@" + c.payload;
    ContainsAcross(Itoa(c.cmdNo), tail);
    assert tail == c.host + "@" + (c.op + "@" + c.payload);
    ContainsAcross(c.host, c.op + "@" + c.payload);
    ContainsAcross(c.op, c.payload);
  }

  lemma FourFields(s: string)
    requires |Split(s, "@")| > 3
    ensures |s| >= |Split(s, "@")[0]| + |Split(s, "@")[1]| + |Split(s, "@")[2]| + |Split(s, "@")[3]| + 3
  {
    var s1 := Peel(s, "@");
    var s2 := Peel(s1, "@");
    var s3 := Peel(s2, "@");
  }

  /** Only a cut-free command decodes to itself: a proper prefix has lost characters. */
  lemma PrefixDecodes(s: string, c: Command)
    requires s <= Encode(c) && c.op in OPERATIONS && Decode(s) == Some(c)
    ensures s == Encode(c) && '@' !in c.host && '@' !in c.payload
  {
    var f := Split(s, "@");
    PiecesAvoidSeparator(s, '@');
    FourFields(s);
    ItoaRoundTrip(c.cmdNo);
    var tail := c.host + "@" + c.op + "@" + c.payload;
    FirstAt(Encode(c), Itoa(c.cmdNo), "@", tail);
    var k := Find(s, "@", 0);
    assert At(s, "@", k);
    assert s[k..k + 1][0] == s[k] == '@';
    assert Encode(c)[k] == '@';
    assert k >= |Itoa(c.cmdNo)|;
  }

  /** A delivered command is the command sent exactly when caller and arguments are free of
      '@' and of "$$". */
  lemma DeliveredUnchanged(nodepos: int, counter: nat, c: Command)
    requires c.op in OPERATIONS
    ensures Delivered(nodepos, counter, c) == Some(c) <==> Clean(c.host) && Clean(c.payload)
  {
    var cmd := Encode(c);
    var s := Split(cmd, "$$")[0];
    FromModified(nodepos, counter, cmd);
    EncodeContains(c);
    if Clean(c.host) && Clean(c.payload) {
      DecodeEncode(c);
      PayloadWhole(c.payload);
    }
    if Decode(s) == Some(c) {
      PrefixDecodes(s, c);
    }
  }

  lemma PayloadWhole(s: string)
    requires '@' !in s
    ensures Split(s, "@")[0] == s
  {
    if Contains(s, "@") {
      var k: nat :| k <= |s| && At(s, "@", k);
      AtChar(s, "@", k);
    }
  }
}

/** net.SplitHostPort, net.JoinHostPort, strconv.Itoa and strconv.Atoi, octet by octet. */
module HostPort {
  import opened Bytes

  // ---------- searching ----------

  function IndexOf(s: Text, c: Byte): (i: int)
    ensures -1 <= i < |s|
    ensures i < 0 <==> c !in s
    ensures 0 <= i ==> s[i] == c && forall k :: 0 <= k < i ==> s[k] != c
  {
    if s == [] then -1
    else if s[0] == c then 0
    else
      var r := IndexOf(s[1..], c);
      assert s == [s[0]] + s[1..];
      if r < 0 then -1 else r + 1
  }

  function LastIndexOf(s: Text, c: Byte): (i: int)
    ensures -1 <= i < |s|
    ensures i < 0 <==> c !in s
    ensures 0 <= i ==> s[i] == c && forall k :: i < k < |s| ==> s[k] != c
  {
    if s == [] then -1
    else if s[|s| - 1] == c then |s| - 1
    else
      assert s == s[..|s| - 1] + [s[|s| - 1]];
      LastIndexOf(s[..|s| - 1], c)
  }

  // ---------- host and port ----------

  datatype HostPort = HostPort(host: Text, port: Text)

  function JoinHostPort(host: Text, port: Text): Text {
    if COLON in host then [OPEN] + host + [CLOSE, COLON] + port
    else host + [COLON] + port
  }

  function SplitHostPort(s: Text): Option<HostPort> {
    var i := LastIndexOf(s, COLON);
    if i < 0 then None
    else if s[0] == OPEN then SplitBracketed(s, i, IndexOf(s, CLOSE))
    else SplitPlain(s, i)
  }

  /** The literal "[host]:port": the first closing bracket stands just before the last colon. */
  function SplitBracketed(s: Text, colon: nat, close: int): Option<HostPort>
    requires colon < |s| && -1 <= close < |s|
  {
    if close < 0 || close + 1 != colon then None
    else if close == 0 || OPEN in s[1..] || CLOSE in s[colon..] then None
    else Some(HostPort(s[1..close], s[colon + 1..]))
  }

  function SplitPlain(s: Text, colon: nat): Option<HostPort>
    requires colon < |s|
  {
    if COLON in s[..colon] || OPEN in s || CLOSE in s then None
    else Some(HostPort(s[..colon], s[colon + 1..]))
  }

  predicate NoBrackets(s: Text) {
    OPEN !in s && CLOSE !in s
  }

  /** What SplitHostPort returns never holds a bracket, and its port holds no colon. */
  lemma SplitParts(s: Text)
    ensures SplitHostPort(s).Some? ==>
              var hp := SplitHostPort(s).value;
              NoBrackets(hp.host) && NoBrackets(hp.port) && COLON !in hp.port
  {
    var i := LastIndexOf(s, COLON);
    var end := IndexOf(s, CLOSE);
    if SplitHostPort(s).Some? && s[0] == OPEN {
      assert forall x | x in s[1..end] :: x in s[1..];
      assert forall x | x in s[i + 1..] :: x in s[1..] && x in s[i..];
    }
  }

  lemma SplitOfJoinNamed(host: Text, port: Text)
    requires COLON !in host && NoBrackets(host) && NoBrackets(port) && COLON !in port
    ensures SplitHostPort(JoinHostPort(host, port)) == Some(HostPort(host, port))
  {
    var s := JoinHostPort(host, port);
    var i := LastIndexOf(s, COLON);
    assert s[|host|] == COLON;
    assert i == |host|;
    assert s[..i] == host && s[i + 1..] == port;
  }

  lemma BracketedIndices(host: Text, port: Text, s: Text)
    requires s == [OPEN] + host + [CLOSE, COLON] + port
    requires NoBrackets(host) && COLON !in port
    ensures LastIndexOf(s, COLON) == |host| + 2
    ensures IndexOf(s, CLOSE) == |host| + 1
  {
    var n := |host| + 2;
    assert s[n] == COLON && s[n - 1] == CLOSE && s[0] == OPEN;
    assert forall k :: 0 < k < n - 1 ==> s[k] == host[k - 1];
    assert forall k :: n < k < |s| ==> s[k] == port[k - n - 1];
  }

  lemma BracketedSlices(host: Text, port: Text, s: Text)
    requires s == [OPEN] + host + [CLOSE, COLON] + port
    requires NoBrackets(host) && NoBrackets(port)
    ensures SplitBracketed(s, |host| + 2, |host| + 1) == Some(HostPort(host, port))
  {
    assert s[1..] == host + [CLOSE, COLON] + port;
    assert s[|host| + 2..] == [COLON] + port;
    assert s[1..|host| + 1] == host;
    assert s[|host| + 3..] == port;
  }

  lemma SplitOfJoinBracketed(host: Text, port: Text)
    requires COLON in host && NoBrackets(host) && NoBrackets(port) && COLON !in port
    ensures SplitHostPort(JoinHostPort(host, port)) == Some(HostPort(host, port))
  {
    hide SplitBracketed, SplitPlain, LastIndexOf, IndexOf;
    var s := JoinHostPort(host, port);
    BracketedIndices(host, port, s);
    BracketedSlices(host, port, s);
  }

  /** Splitting undoes joining exactly when neither part has a bracket and the port has no colon. */
  lemma SplitOfJoin(host: Text, port: Text)
    ensures SplitHostPort(JoinHostPort(host, port)) == Some(HostPort(host, port))
            <==> NoBrackets(host) && NoBrackets(port) && COLON !in port
  {
    SplitParts(JoinHostPort(host, port));
    if NoBrackets(host) && NoBrackets(port) && COLON !in port {
      if COLON in host {
        SplitOfJoinBracketed(host, port);
      } else {
        SplitOfJoinNamed(host, port);
      }
    }
  }

  ghost function Joined(host: Text): Text {
    if COLON in host then [OPEN] + host + [CLOSE] else host
  }

  lemma JoinedInjective(h1: Text, h2: Text)
    requires Joined(h1) == Joined(h2)
    ensures h1 == h2
  {
    if COLON in h1 {
      assert Joined(h1)[1..|h1| + 1] == h1;
    }
    if COLON in h2 {
      assert Joined(h2)[1..|h2| + 1] == h2;
    }
    assert COLON in h1 ==> COLON in Joined(h1);
    assert COLON in h2 ==> COLON in Joined(h2);
  }

  /** An address string determines its host and its port when the ports have no colon. */
  lemma JoinInjective(h1: Text, p1: Text, h2: Text, p2: Text)
    requires COLON !in p1 && COLON !in p2 && JoinHostPort(h1, p1) == JoinHostPort(h2, p2)
    ensures h1 == h2 && p1 == p2
  {
    var s := JoinHostPort(h1, p1);
    assert s == Joined(h1) + [COLON] + p1 && s == Joined(h2) + [COLON] + p2;
    LastColon(Joined(h1), p1);
    LastColon(Joined(h2), p2);
    assert Joined(h1) == s[..|Joined(h1)|] && Joined(h2) == s[..|Joined(h2)|];
    assert p1 == s[|Joined(h1)| + 1..] && p2 == s[|Joined(h2)| + 1..];
    JoinedInjective(h1, h2);
  }

  lemma LastColon(a: Text, p: Text)
    requires COLON !in p
    ensures LastIndexOf(a + [COLON] + p, COLON) == |a|
  {
    var s := a + [COLON] + p;
    hide LastIndexOf;
    assert s[|a|] == COLON;
    var i := LastIndexOf(s, COLON);
    assert i <= |a|;
  }

  // ---------- decimal numbers ----------

  predicate IsDigit(c: Byte) {
    ZERO <= c <= ZERO + 9
  }

  predicate AllDigits(s: Text) {
    forall i | 0 <= i < |s| :: IsDigit(s[i])
  }

  function Digits(n: nat): (s: Text)
    ensures 0 < |s| && AllDigits(s)
  {
    if n < 10 then [ZERO + n] else Digits(n / 10) + [ZERO + n % 10]
  }

  function Itoa(n: int): Text {
    if n < 0 then [MINUS] + Digits(-n) else Digits(n)
  }

  function Value(s: Text): (n: nat)
    requires AllDigits(s)
  {
    if s == [] then 0
    else
      var last: int := s[|s| - 1];
      var more: int := Value(s[..|s| - 1]);
      10 * more + (last - ZERO)
  }

  const MAX_INT: int := 0x7FFF_FFFF_FFFF_FFFF

  /** An optional sign, at least one digit, and a value that fits in a 64-bit int. */
  function Atoi(s: Text): Option<int> {
    var signed := s != [] && (s[0] == MINUS || s[0] == PLUS);
    var digits := if signed then s[1..] else s;
    if digits == [] || !AllDigits(digits) then None
    else
      var magnitude: int := Value(digits);
      var v := if signed && s[0] == MINUS then -magnitude else magnitude;
      if -MAX_INT - 1 <= v <= MAX_INT then Some(v) else None
  }

  lemma {:induction false} ValueOfDigits(n: nat)
    ensures Value(Digits(n)) == n
  {
    if 10 <= n {
      ValueOfDigits(n / 10);
      assert Digits(n)[..|Digits(n)| - 1] == Digits(n / 10);
    } else {
      assert Digits(n)[..0] == [];
    }
  }

  /** Atoi undoes Itoa on every 64-bit int. */
  lemma AtoiOfItoa(n: int)
    requires -MAX_INT - 1 <= n <= MAX_INT
    ensures Atoi(Itoa(n)) == Some(n)
  {
    if n < 0 {
      ValueOfDigits(-n);
      assert Itoa(n)[1..] == Digits(-n);
    } else {
      ValueOfDigits(n);
      assert IsDigit(Digits(n)[0]);
    }
  }

  lemma ItoaPlain(n: int)
    ensures NoBrackets(Itoa(n)) && COLON !in Itoa(n)
  {
  }

  // ---------- which texts are addresses and numbers ----------

  /** The texts that stand for a host and a port: "host:port" with no other colon, or "[host]:port". */
  ghost predicate Writes(s: Text, host: Text, port: Text) {
    && 91 !in host && 93 !in host && 91 !in port && 93 !in port && 58 !in port
    && (s == [91] + host + [93, 58] + port || (58 !in host && s == host + [58] + port))
  }

  lemma WrittenSplits(s: Text, host: Text, port: Text)
    requires Writes(s, host, port)
    ensures SplitHostPort(s) == Some(HostPort(host, port))
  {
    hide SplitBracketed, SplitPlain, LastIndexOf, IndexOf;
    if s == [91] + host + [93, 58] + port {
      BracketedIndices(host, port, s);
      BracketedSlices(host, port, s);
    } else {
      SplitOfJoin(host, port);
    }
  }

  lemma SplitIsWritten(s: Text)
    ensures SplitHostPort(s).Some? ==> Writes(s, SplitHostPort(s).value.host, SplitHostPort(s).value.port)
  {
    SplitParts(s);
    var i, end := LastIndexOf(s, COLON), IndexOf(s, CLOSE);
    hide LastIndexOf, IndexOf;
    if SplitHostPort(s).Some? {
      var hp := SplitHostPort(s).value;
      if s[0] == OPEN {
        assert s == [s[0]] + s[1..end] + [s[end], s[i]] + s[i + 1..];
      } else {
        assert s == s[..i] + [s[i]] + s[i + 1..];
      }
    }
  }

  /** An address splits if and only if it is written in one of the two ways. */
  lemma SplitIff(s: Text, host: Text, port: Text)
    ensures SplitHostPort(s) == Some(HostPort(host, port)) <==> Writes(s, host, port)
  {
    hide SplitHostPort, Writes;
    SplitIsWritten(s);
    if Writes(s, host, port) {
      WrittenSplits(s, host, port);
    }
  }

  function Zeros(k: nat): Text {
    seq(k, _ => 48)
  }

  /** The texts of a number: a sign, which only a negative number needs, zeros, and the digits of its magnitude. */
  ghost predicate Spelled(s: Text, n: int, sign: Text, k: nat) {
    && sign in {[], [43], [45]} && (n < 0 ==> sign == [45]) && (0 < n ==> sign != [45])
    && s == sign + Zeros(k) + Digits(if n < 0 then -n else n)
  }

  lemma {:induction false} ValueOfPadded(k: nat, n: nat)
    ensures AllDigits(Zeros(k) + Digits(n)) && Value(Zeros(k) + Digits(n)) == n
  {
    var s := Zeros(k) + Digits(n);
    if 10 <= n {
      ValueOfPadded(k, n / 10);
      assert s[..|s| - 1] == Zeros(k) + Digits(n / 10);
    } else {
      assert s[..|s| - 1] == Zeros(k);
      ValueOfZeros(k);
    }
  }

  lemma {:induction false} ValueOfZeros(k: nat)
    ensures AllDigits(Zeros(k)) && Value(Zeros(k)) == 0
  {
    if 0 < k {
      ValueOfZeros(k - 1);
      assert Zeros(k)[..k - 1] == Zeros(k - 1);
    }
  }

  lemma {:induction false} PaddedDigits(s: Text) returns (k: nat)
    requires s != [] && AllDigits(s)
    ensures s == Zeros(k) + Digits(Value(s))
  {
    var front, last := s[..|s| - 1], s[|s| - 1];
    assert s == front + [last];
    if front == [] || Value(front) == 0 {
      AllZeros(front);
      k := |front|;
    } else {
      k := PaddedDigits(front);
      assert Value(s) / 10 == Value(front);
    }
  }

  lemma {:induction false} AllZeros(s: Text)
    requires AllDigits(s) && Value(s) == 0
    ensures s == Zeros(|s|)
  {
    if s != [] {
      AllZeros(s[..|s| - 1]);
      assert s == s[..|s| - 1] + [s[|s| - 1]];
    }
  }

  /** The magnitude of a number, after its sign. */
  function Unsigned(s: Text): Text {
    if s != [] && (s[0] == 45 || s[0] == 43) then s[1..] else s
  }

  lemma AtoiOf(s: Text)
    ensures Atoi(s).Some? ==> Unsigned(s) != [] && AllDigits(Unsigned(s))
    ensures Unsigned(s) != [] && AllDigits(Unsigned(s)) ==>
              var m: int := Value(Unsigned(s));
              var v := if s[0] == 45 then -m else m;
              Atoi(s) == if -0x8000_0000_0000_0000 <= v < 0x8000_0000_0000_0000 then Some(v) else None
  {
    hide Value, AllDigits;
  }

  lemma AtoiIsSpelled(s: Text) returns (sign: Text, k: nat)
    requires Atoi(s).Some?
    ensures Spelled(s, Atoi(s).value, sign, k)
    ensures -0x8000_0000_0000_0000 <= Atoi(s).value < 0x8000_0000_0000_0000
  {
    hide Atoi, Digits, Value, AllDigits, Zeros;
    AtoiOf(s);
    var digits := Unsigned(s);
    sign := if |digits| < |s| then [s[0]] else [];
    k := PaddedDigits(digits);
    assert s == sign + digits;
  }

  lemma SpelledIsRead(s: Text, n: int, sign: Text, k: nat)
    requires Spelled(s, n, sign, k) && -0x8000_0000_0000_0000 <= n < 0x8000_0000_0000_0000
    ensures Atoi(s) == Some(n)
  {
    hide Atoi, Digits, Value, Zeros;
    var m: nat := if n < 0 then -n else n;
    var digits := Zeros(k) + Digits(m);
    ValueOfPadded(k, m);
    assert s == sign + digits && digits != [] && IsDigit(digits[0]);
    assert sign != [] ==> s[0] == sign[0] && s[1..] == digits;
    assert sign == [] ==> s == digits;
    assert Unsigned(s) == digits;
    AtoiOf(s);
  }

  /** A text is read as a number if and only if it spells the number and the number fits in 64 bits. */
  lemma AtoiIff(s: Text, n: int)
    ensures Atoi(s) == Some(n)
            <==> -0x8000_0000_0000_0000 <= n < 0x8000_0000_0000_0000 && exists sign, k :: Spelled(s, n, sign, k)
  {
    hide *;
    if Atoi(s) == Some(n) {
      var sign, k := AtoiIsSpelled(s);
      assert Spelled(s, n, sign, k);
    }
    forall sign, k | Spelled(s, n, sign, k) && -0x8000_0000_0000_0000 <= n < 0x8000_0000_0000_0000
      ensures Atoi(s) == Some(n)
    {
      SpelledIsRead(s, n, sign, k);
    }
  }
}

/** The key under which the two clients of a pair meet at the signaling server. */
module PairKeys {

  /** `std::string`'s order. */
  predicate Less(a: string, b: string) {
    if b == "" then false
    else if a == "" then true
    else if a[0] != b[0] then a[0] < b[0]
    else Less(a[1..], b[1..])
  }

  function Joined(a: string, b: string): string {
    a + "_" + b
  }

  function PairKey(own: string, other: string): string {
    if Less(own, other) then Joined(own, other) else Joined(other, own)
  }

  datatype Participant = Own | Bot | Remote(token: string, key: string)

  /** Which participant a client creates for a room member, and what a remote one registers with. */
  function Create(own: string, id: string, displayName: string): Participant {
    if id == own then Own
    else if displayName == "Fubble Bot" then Bot
    else Remote(own, PairKey(own, id))
  }

  /** Starts with the sigil and contains it nowhere else (section 4.2.1 "User Identifiers" of the Matrix appendices). */
  predicate UserId(id: string) {
    id != "" && id[0] == '@' && '@' !in id[1..]
  }

  lemma {:induction false} LessIsTotal(a: string, b: string)
    ensures Less(a, b) <==> a != b && !Less(b, a)
  {
    if a != "" && b != "" && a[0] == b[0] {
      LessIsTotal(a[1..], b[1..]);
      assert a == [a[0]] + a[1..] && b == [b[0]] + b[1..];
    }
  }

  /** Both ends of a pair compute the same key. */
  lemma BothEndsAgree(a: string, b: string)
    ensures PairKey(a, b) == PairKey(b, a)
  {
    LessIsTotal(a, b);
  }

  /** Two different users, neither of them named like the bot, register for each other: each under its own id, with one
      key that joins the lesser id and the greater. Nobody registers for themselves or for the bot. */
  lemma UsersMeet(a: string, b: string, nameOfA: string, nameOfB: string)
    requires a != b && nameOfA != "Fubble Bot" && nameOfB != "Fubble Bot"
    ensures var key := if Less(a, b) then a + "_" + b else b + "_" + a;
      Create(a, b, nameOfB) == Remote(a, key) && Create(b, a, nameOfA) == Remote(b, key)
    ensures Create(a, a, nameOfA) == Own && Create(a, b, "Fubble Bot") == Bot
  {
    LessIsTotal(a, b);
  }

  lemma JoinedLonger(a: string, b: string, c: string, d: string)
    requires Joined(a, b) == Joined(c, d) && |a| > |c|
    ensures a == c + "_" + a[|c| + 1..] && d == a[|c| + 1..] + "_" + b
  {
    var k, x := Joined(a, b), a[|c| + 1..];
    assert k[..|a|] == a && k[..|c|] == c && k[|c|] == '_';
    assert a[..|c|] == c && a[|c|] == '_';
    assert k[|c| + 1..] == d;
    assert k[|c| + 1..] == x + "_" + b;
  }

  /** Exactly when two different joins coincide: one side is longer by "_x", and the other side starts with "x_". */
  lemma JoinsCoincide(a: string, b: string, c: string, d: string)
    ensures Joined(a, b) == Joined(c, d) <==>
      || (a == c && b == d)
      || (exists x :: a == Joined(c, x) && d == Joined(x, b))
      || (exists x :: c == Joined(a, x) && b == Joined(x, d))
  {
    if Joined(a, b) == Joined(c, d) {
      if |a| > |c| {
        JoinedLonger(a, b, c, d);
        assert a == Joined(c, a[|c| + 1..]);
      } else if |c| > |a| {
        JoinedLonger(c, d, a, b);
        assert c == Joined(a, c[|a| + 1..]);
      } else {
        var k := Joined(a, b);
        assert k[..|a|] == a && k[..|a|] == c && k[|a| + 1..] == b && k[|a| + 1..] == d;
      }
    } else {
      forall x ensures !(a == Joined(c, x) && d == Joined(x, b)) && !(c == Joined(a, x) && b == Joined(x, d)) {
        assert Joined(Joined(c, x), b) == Joined(c, Joined(x, b));
        assert Joined(Joined(a, x), d) == Joined(a, Joined(x, d));
      }
    }
  }

  /** Different pairs of users never share a key. */
  lemma PairsNeverShareAKey(a: string, b: string, c: string, d: string)
    requires UserId(a) && UserId(b) && UserId(c) && UserId(d)
    requires PairKey(a, b) == PairKey(c, d)
    ensures (a == c && b == d) || (a == d && b == c)
  {
    var a', b' := if Less(a, b) then a else b, if Less(a, b) then b else a;
    var c', d' := if Less(c, d) then c else d, if Less(c, d) then d else c;
    JoinsCoincide(a', b', c', d');
    if x :| a' == Joined(c', x) && d' == Joined(x, b') {
      SigilInside(x, b');
    }
    if x :| c' == Joined(a', x) && b' == Joined(x, d') {
      SigilInside(x, d');
    }
  }

  lemma SigilInside(x: string, id: string)
    requires UserId(id)
    ensures !UserId(Joined(x, id))
  {
    assert Joined(x, id)[1..][|x|] == '@';
  }

  /** Without that rule two pairs can meet under one key. */
  lemma SharedKeyExample()
    ensures PairKey("@a", "@b_@c") == PairKey("@a_@b", "@c") && UserId("@a") && UserId("@c") && !UserId("@b_@c")
  {
    assert Less("@a", "@b_@c") && Less("@a_@b", "@c") by {
      assert "@a"[1..] == "a" && "@b_@c"[1..] == "b_@c" && "@a_@b"[1..] == "a_@b" && "@c"[1..] == "c";
    }
    assert "@b_@c"[1..][2] == '@';
  }
}

/** The key under which fees are recorded: a message type, and a recipient after a newline if there is one
    (`GetCompositeKey`, `SplitCompositeKey`). */
module FeeKeys {

  const DELIMITER := '\n'

  function GetCompositeKey(msgType: string, recipient: string): string {
    if |recipient| == 0 then msgType else msgType + [DELIMITER] + recipient
  }

  /** The pieces of s between delimiters; always at least one. */
  function Pieces(s: string): (r: seq<string>)
    ensures |r| >= 1
  {
    if s == "" then [""]
    else
      var rest := Pieces(s[1..]);
      if s[0] == DELIMITER then [""] + rest else [[s[0]] + rest[0]] + rest[1..]
  }

  function SplitCompositeKey(key: string): (string, string) {
    var pair := Pieces(key);
    (pair[0], if |pair| == 2 && |pair[1]| > 0 then pair[1] else "")
  }

  lemma {:induction false} PiecesOfPlain(s: string)
    requires DELIMITER !in s
    ensures Pieces(s) == [s]
  {
    if s != "" {
      assert s[0] in s && forall c :: c in s[1..] ==> c in s;
      PiecesOfPlain(s[1..]);
      assert [s[0]] + s[1..] == s;
    }
  }

  lemma {:induction false} PiecesOfPair(s: string, t: string)
    requires DELIMITER !in s
    ensures Pieces(s + [DELIMITER] + t) == [s] + Pieces(t)
  {
    var whole := s + [DELIMITER] + t;
    if s == "" {
      assert whole[1..] == t;
    } else {
      assert s[0] in s && forall c :: c in s[1..] ==> c in s;
      PiecesOfPair(s[1..], t);
      assert whole[1..] == s[1..] + [DELIMITER] + t;
      assert [s[0]] + s[1..] == s;
    }
  }

  /** A string with a delimiter has a first piece shorter than itself, and more than one piece. */
  lemma {:induction false} PiecesOfDelimited(s: string)
    requires DELIMITER in s
    ensures |Pieces(s)| >= 2 && DELIMITER !in Pieces(s)[0]
  {
    if s[0] != DELIMITER {
      assert s == [s[0]] + s[1..];
      PiecesOfDelimited(s[1..]);
    }
  }

  /** Splitting a key gives back its two parts exactly when neither part contains the delimiter. */
  lemma SplitUndoesGet(msgType: string, recipient: string)
    ensures SplitCompositeKey(GetCompositeKey(msgType, recipient)) == (msgType, recipient)
            <==> DELIMITER !in msgType && DELIMITER !in recipient
  {
    var key := GetCompositeKey(msgType, recipient);
    if DELIMITER in msgType {
      assert DELIMITER in key;
      PiecesOfDelimited(key);
    } else if recipient == "" {
      PiecesOfPlain(msgType);
    } else {
      PiecesOfPair(msgType, recipient);
      if DELIMITER in recipient {
        PiecesOfDelimited(recipient);
        assert SplitCompositeKey(key).1 == "";
      } else {
        PiecesOfPlain(recipient);
      }
    }
  }

  /** Keys of delimiter-free parts are never shared by two different pairs. */
  lemma KeysAreDistinct(m1: string, r1: string, m2: string, r2: string)
    requires DELIMITER !in m1 && DELIMITER !in r1 && DELIMITER !in m2 && DELIMITER !in r2
    requires GetCompositeKey(m1, r1) == GetCompositeKey(m2, r2)
    ensures m1 == m2 && r1 == r2
  {
    SplitUndoesGet(m1, r1);
    SplitUndoesGet(m2, r2);
  }
}

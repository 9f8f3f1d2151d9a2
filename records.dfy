/** Log records as the profiling route receives them, and how a record's
    message is recognised as the begin or the end of a profiled block. */
module ProfileRecords {

  /** The level that marks profiling records (the logger's LEVEL_PROFILE). */
  const ProfileLevel: string := "profile"

  /** The prefixes of the messages that open and close a profiled block. */
  const BeginPrefix: string := "begin:"
  const EndPrefix: string := "end:"

  /** One log record: message, level, category and timestamp, in that order
      in the logger's array. */
  datatype Record = Record(message: string, level: string, category: string, time: real)

  datatype Option<T> = None | Some(value: T)

  /** The outcome of building a report: the rows, or the mismatch error that
      names the token of the offending end record. */
  datatype Outcome<T> = Ok(value: T) | Mismatch(token: string)

  /** What a record means to the span matcher. */
  datatype Mark = BeginMark(token: string) | EndMark(token: string) | Unmarked

  /** ASCII lower-casing, as used by a case-insensitive byte comparison. */
  function Lower(c: char): char
  {
    if 'A' <= c <= 'Z' then (c as int + 32) as char else c
  }

  /** The first |prefix| characters of s equal prefix when s is lower-cased:
      a zero result of strncasecmp(s, prefix, |prefix|) for a lower-case prefix. */
  predicate CaselessPrefix(prefix: string, s: string)
  {
    |prefix| <= |s| && (prefix == [] || (Lower(s[0]) == prefix[0] && CaselessPrefix(prefix[1..], s[1..])))
  }

  /** The caseless prefix test compares character by character: s is at
      least as long as prefix, and lower-cases to it over that length. */
  lemma {:induction false} CaselessPrefixAt(prefix: string, s: string)
    ensures CaselessPrefix(prefix, s) <==> |prefix| <= |s| && forall i :: 0 <= i < |prefix| ==> Lower(s[i]) == prefix[i]
  {
    if prefix != [] && |prefix| <= |s| {
      CaselessPrefixAt(prefix[1..], s[1..]);
      if forall i :: 0 <= i < |prefix| ==> Lower(s[i]) == prefix[i] {
        forall i | 0 <= i < |prefix| - 1 ensures Lower(s[1..][i]) == prefix[1..][i] {
          assert Lower(s[i + 1]) == prefix[i + 1];
        }
      }
      if CaselessPrefix(prefix, s) {
        forall i | 0 <= i < |prefix| ensures Lower(s[i]) == prefix[i] {
          if i > 0 {
            assert s[1..][i - 1] == s[i] && prefix[1..][i - 1] == prefix[i];
          }
        }
      }
    }
  }

  /** A record of another level is ignored; a message that begins with
      "begin:" opens a block and one that begins with "end:" closes one
      (prefixes matched without regard to case, "begin:" tested first); the
      token is the rest of the message, with its case kept. */
  function Classify(r: Record): (m: Mark)
    ensures m.BeginMark? ==> r.level == ProfileLevel && CaselessPrefix(BeginPrefix, r.message)
    ensures m.EndMark? ==> r.level == ProfileLevel && !CaselessPrefix(BeginPrefix, r.message) && CaselessPrefix(EndPrefix, r.message)
    ensures m.Unmarked? <==> r.level != ProfileLevel || (!CaselessPrefix(BeginPrefix, r.message) && !CaselessPrefix(EndPrefix, r.message))
    ensures m.BeginMark? ==> |BeginPrefix| <= |r.message| && m.token == r.message[|BeginPrefix|..]
    ensures m.EndMark? ==> |EndPrefix| <= |r.message| && m.token == r.message[|EndPrefix|..]
  {
    if r.level != ProfileLevel then Unmarked
    else if CaselessPrefix(BeginPrefix, r.message) then BeginMark(r.message[|BeginPrefix|..])
    else if CaselessPrefix(EndPrefix, r.message) then EndMark(r.message[|EndPrefix|..])
    else Unmarked
  }

  /** A prefix whose characters are already lower case is a caseless prefix
      of anything that starts with it. */
  lemma {:induction false} CaselessPrefixOfAppend(prefix: string, rest: string)
    requires forall i :: 0 <= i < |prefix| ==> Lower(prefix[i]) == prefix[i]
    ensures CaselessPrefix(prefix, prefix + rest)
  {
    if prefix != [] {
      assert (prefix + rest)[1..] == prefix[1..] + rest;
      CaselessPrefixOfAppend(prefix[1..], rest);
    }
  }

  /** The message a begin record carries for a token. */
  function BeginMessage(token: string): string
  {
    BeginPrefix + token
  }

  /** The message an end record carries for a token. */
  function EndMessage(token: string): string
  {
    EndPrefix + token
  }

  /** Recognising a profiling record recovers exactly the token its message
      was built from, and whether it opens or closes the block. */
  lemma MarkRoundTrip(token: string, category: string, time: real)
    ensures Classify(Record(BeginMessage(token), ProfileLevel, category, time)) == BeginMark(token)
    ensures Classify(Record(EndMessage(token), ProfileLevel, category, time)) == EndMark(token)
  {
    CaselessPrefixOfAppend(BeginPrefix, token);
    assert BeginMessage(token)[|BeginPrefix|..] == token;
    CaselessPrefixOfAppend(EndPrefix, token);
    assert EndMessage(token)[|EndPrefix|..] == token;
    assert !CaselessPrefix(BeginPrefix, EndMessage(token)) by {
      assert EndMessage(token)[0] == 'e';
    }
  }
}

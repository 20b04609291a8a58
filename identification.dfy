/** controllers/identificationController.js, `identifyVoice`: validation order,
    the match list built over all users, and the in-place sort by confidence.
    `User.findAll`, `VoicePrint.findByUserAndPhrase`, `JSON.parse` and
    `voiceModel.verifyVoice` are parameters; a thrown error is an `Err`. */
module Identification {
  import opened Common

  /** The two columns of a user the handler reads. */
  datatype UserRow = UserRow(id: string, username: string)

  /** What `verifyVoice` resolves with. */
  datatype VoiceResult = VoiceResult(success: bool, confidence: real)

  datatype Match = Match(userId: string, username: string, confidence: real)

  datatype Body = Error(error: string) | Matches(matches: seq<Match>, message: string)

  datatype Response = Response(status: nat, body: Body)

  const PhraseRequired := "Phrase is required"
  const NoSample := "No voice sample provided"
  const Failure := "Identification failed"

  /** One iteration of the loop over users: no stored print gives no match, an
      unsuccessful comparison gives no match, and any thrown error stops the
      handler. */
  function MatchOf<P>(user: UserRow, phrase: string, sample: seq<byte>,
                      findPrint: (string, string) -> Result<Option<string>>,
                      parse: string -> Result<P>,
                      verify: (seq<byte>, string, P) -> Result<VoiceResult>): (r: Result<Option<Match>>)
    ensures r.Ok? && r.value.Some? ==>
      r.value.value.userId == user.id && r.value.value.username == user.username &&
      findPrint(user.id, phrase).Ok? && findPrint(user.id, phrase).value.Some? &&
      parse(findPrint(user.id, phrase).value.value).Ok? &&
      var result := verify(sample, phrase, parse(findPrint(user.id, phrase).value.value).value);
      result.Ok? && result.value.success && r.value.value.confidence == result.value.confidence
    ensures findPrint(user.id, phrase) == Ok(None) ==> r == Ok(None)
  {
    match findPrint(user.id, phrase)
    case Err(m) => Err(m)
    case Ok(None) => Ok(None)
    case Ok(Some(record)) =>
      match parse(record)
      case Err(m) => Err(m)
      case Ok(storedPrint) =>
        match verify(sample, phrase, storedPrint)
        case Err(m) => Err(m)
        case Ok(result) =>
          if result.success then Ok(Some(Match(user.id, user.username, result.confidence))) else Ok(None)
  }

  /** The `matches` array after the loop over `users`, or the first error. */
  function MatchList<P>(users: seq<UserRow>, phrase: string, sample: seq<byte>,
                        findPrint: (string, string) -> Result<Option<string>>,
                        parse: string -> Result<P>,
                        verify: (seq<byte>, string, P) -> Result<VoiceResult>): Result<seq<Match>>
  {
    if |users| == 0 then Ok([])
    else
      match MatchList(users[..|users| - 1], phrase, sample, findPrint, parse, verify)
      case Err(m) => Err(m)
      case Ok(matches) =>
        match MatchOf(users[|users| - 1], phrase, sample, findPrint, parse, verify)
        case Err(m) => Err(m)
        case Ok(None) => Ok(matches)
        case Ok(Some(found)) => Ok(matches + [found])
  }

  /** When the loop completes, every user's iteration succeeded, and the
      matches are exactly the users with a stored print whose comparison
      succeeded, each with that comparison's confidence. */
  lemma {:induction false} MatchListExact<P>(users: seq<UserRow>, phrase: string, sample: seq<byte>,
                                             findPrint: (string, string) -> Result<Option<string>>,
                                             parse: string -> Result<P>,
                                             verify: (seq<byte>, string, P) -> Result<VoiceResult>)
    requires MatchList(users, phrase, sample, findPrint, parse, verify).Ok?
    ensures forall i :: 0 <= i < |users| ==> MatchOf(users[i], phrase, sample, findPrint, parse, verify).Ok?
    ensures var matches := MatchList(users, phrase, sample, findPrint, parse, verify).value;
      |matches| <= |users| &&
      forall m :: m in matches <==>
        exists i :: 0 <= i < |users| && MatchOf(users[i], phrase, sample, findPrint, parse, verify) == Ok(Some(m))
  {
    if |users| > 0 {
      var init := users[..|users| - 1];
      MatchListExact(init, phrase, sample, findPrint, parse, verify);
      forall i | 0 <= i < |users|
        ensures MatchOf(users[i], phrase, sample, findPrint, parse, verify).Ok?
      {
        if i < |init| {
          assert users[i] == init[i];
        }
      }
      var matches := MatchList(users, phrase, sample, findPrint, parse, verify).value;
      forall m ensures m in matches <==>
        exists i :: 0 <= i < |users| && MatchOf(users[i], phrase, sample, findPrint, parse, verify) == Ok(Some(m))
      {
        if m in matches && m in MatchList(init, phrase, sample, findPrint, parse, verify).value {
          var i :| 0 <= i < |init| && MatchOf(init[i], phrase, sample, findPrint, parse, verify) == Ok(Some(m));
          assert users[i] == init[i];
        }
        if exists i :: 0 <= i < |users| && MatchOf(users[i], phrase, sample, findPrint, parse, verify) == Ok(Some(m)) {
          var i :| 0 <= i < |users| && MatchOf(users[i], phrase, sample, findPrint, parse, verify) == Ok(Some(m));
          if i < |init| {
            assert init[i] == users[i];
          }
        }
      }
    }
  }

  /** Every user appears at most once in the matches when user ids are
      distinct, as the primary key of the users table makes them. */
  lemma {:induction false} MatchListDistinct<P>(users: seq<UserRow>, phrase: string, sample: seq<byte>,
                                                findPrint: (string, string) -> Result<Option<string>>,
                                                parse: string -> Result<P>,
                                                verify: (seq<byte>, string, P) -> Result<VoiceResult>)
    requires MatchList(users, phrase, sample, findPrint, parse, verify).Ok?
    requires forall i, j :: 0 <= i < j < |users| ==> users[i].id != users[j].id
    ensures var matches := MatchList(users, phrase, sample, findPrint, parse, verify).value;
      forall i, j :: 0 <= i < j < |matches| ==> matches[i].userId != matches[j].userId
  {
    if |users| > 0 {
      var init := users[..|users| - 1];
      var last := users[|users| - 1];
      MatchListDistinct(init, phrase, sample, findPrint, parse, verify);
      MatchListExact(init, phrase, sample, findPrint, parse, verify);
      var before := MatchList(init, phrase, sample, findPrint, parse, verify).value;
      forall k | 0 <= k < |before|
        ensures before[k].userId != last.id
      {
        assert before[k] in before;
        var i :| 0 <= i < |init| && MatchOf(init[i], phrase, sample, findPrint, parse, verify) == Ok(Some(before[k]));
        assert init[i] == users[i];
      }
    }
  }

  /** Non-increasing confidence, the order `b.confidence - a.confidence` asks for. */
  predicate Descending(s: seq<Match>) {
    forall k, l :: 0 <= k < l < |s| ==> s[k].confidence >= s[l].confidence
  }

  /** `matches.sort((a, b) => b.confidence - a.confidence)`, as a stable
      insertion sort in place. */
  method SortByConfidence(a: array<Match>)
    modifies a
    ensures Descending(a[..])
    ensures multiset(a[..]) == multiset(old(a[..]))
  {
    if a.Length == 0 {
      return;
    }
    for i := 1 to a.Length
      invariant Descending(a[..i])
      invariant multiset(a[..]) == multiset(old(a[..]))
    {
      InsertAt(a, i);
    }
    assert a[..a.Length] == a[..];
  }

  /** Moves `a[i]` left past every smaller confidence, so that `a[..i+1]`
      becomes a sorted permutation of itself; elements of equal confidence
      keep their order and `a[i+1..]` is untouched. */
  method InsertAt(a: array<Match>, i: nat)
    requires i < a.Length && Descending(a[..i])
    modifies a
    ensures Descending(a[..i + 1])
    ensures multiset(a[..]) == multiset(old(a[..]))
    ensures a[i + 1..] == old(a[i + 1..])
    ensures multiset(a[..i + 1]) == multiset(old(a[..i + 1]))
  {
    ghost var before := a[..];
    SinkLeft(a, i);
    ghost var after := a[..];
    assert after[i + 1..] == before[i + 1..];
    SameSuffixSamePrefix(after, before, i + 1);
  }

  /** The swapping loop of `InsertAt`. */
  method SinkLeft(a: array<Match>, i: nat)
    requires i < a.Length && Descending(a[..i])
    modifies a
    ensures Descending(a[..i + 1])
    ensures multiset(a[..]) == multiset(old(a[..]))
    ensures forall k :: i < k < a.Length ==> a[k] == old(a[k])
  {
    var j := i;
    while j > 0 && a[j - 1].confidence < a[j].confidence
      invariant 0 <= j <= i
      invariant forall k, l :: 0 <= k < l <= i && k != j && l != j ==> a[k].confidence >= a[l].confidence
      invariant forall l :: j < l <= i ==> a[j].confidence > a[l].confidence
      invariant 0 < j < i ==> a[j - 1].confidence >= a[j + 1].confidence
      invariant multiset(a[..]) == multiset(old(a[..]))
      invariant forall k :: i < k < a.Length ==> a[k] == old(a[k])
    {
      Swap(a, j);
      j := j - 1;
    }
  }

  /** Two permutations of each other that agree from position n on also
      permute their first n elements. */
  lemma SameSuffixSamePrefix(s: seq<Match>, t: seq<Match>, n: nat)
    requires n <= |s| == |t| && multiset(s) == multiset(t) && s[n..] == t[n..]
    ensures multiset(s[..n]) == multiset(t[..n])
  {
    assert s == s[..n] + s[n..];
    assert t == t[..n] + t[n..];
    assert multiset(s[..n]) + multiset(s[n..]) == multiset(t[..n]) + multiset(t[n..]);
    assert multiset(s[..n]) == multiset(s[..n]) + multiset(s[n..]) - multiset(s[n..]);
    assert multiset(t[..n]) == multiset(t[..n]) + multiset(t[n..]) - multiset(t[n..]);
  }

  /** Exchanges `a[j - 1]` and `a[j]`. */
  method Swap(a: array<Match>, j: nat)
    requires 0 < j < a.Length
    modifies a
    ensures a[j - 1] == old(a[j]) && a[j] == old(a[j - 1])
    ensures forall k :: 0 <= k < a.Length && k != j - 1 && k != j ==> a[k] == old(a[k])
    ensures multiset(a[..]) == multiset(old(a[..]))
  {
    a[j - 1], a[j] := a[j], a[j - 1];
  }

  /** `identifyVoice`: the phrase is checked before the file; every error in
      the loop gives 500; otherwise the response lists the matches by
      non-increasing confidence and names their number. */
  method IdentifyVoice<P>(phrase: Option<string>, file: Option<seq<byte>>,
                          findAll: Result<seq<UserRow>>,
                          findPrint: (string, string) -> Result<Option<string>>,
                          parse: string -> Result<P>,
                          verify: (seq<byte>, string, P) -> Result<VoiceResult>)
    returns (response: Response)
    ensures phrase.None? || phrase == Some("") ==> response == Response(400, Error(PhraseRequired))
    ensures phrase.Some? && phrase.value != "" && file.None? ==> response == Response(400, Error(NoSample))
    ensures response.status in {200, 400, 500}
    ensures response.status == 500 ==> response.body == Error(Failure)
    ensures findAll.Err? && phrase.Some? && phrase.value != "" && file.Some? ==> response == Response(500, Error(Failure))
    ensures phrase.Some? && phrase.value != "" && file.Some? && findAll.Ok? &&
            MatchList(findAll.value, phrase.value, file.value, findPrint, parse, verify).Err? ==>
      response == Response(500, Error(Failure))
    ensures response.status == 400 ==> phrase.None? || phrase.value == "" || file.None?
    ensures response.status == 200 <==>
      phrase.Some? && phrase.value != "" && file.Some? && findAll.Ok? &&
      MatchList(findAll.value, phrase.value, file.value, findPrint, parse, verify).Ok?
    ensures response.status == 200 ==>
      response.body.Matches? &&
      var matches := MatchList(findAll.value, phrase.value, file.value, findPrint, parse, verify).value;
      multiset(response.body.matches) == multiset(matches) &&
      Descending(response.body.matches) &&
      response.body.message == "Identification completed with " + NatToString(|matches|) + " matches"
  {
    if phrase.None? || phrase.value == "" {
      return Response(400, Error(PhraseRequired));
    }
    if file.None? {
      return Response(400, Error(NoSample));
    }
    if findAll.Err? {
      return Response(500, Error(Failure));
    }
    var allUsers := findAll.value;
    var matches: seq<Match> := [];
    for i := 0 to |allUsers|
      invariant MatchList(allUsers[..i], phrase.value, file.value, findPrint, parse, verify) == Ok(matches)
    {
      assert allUsers[..i + 1][..i] == allUsers[..i];
      var user := allUsers[i];
      var storedPrintRecord := findPrint(user.id, phrase.value);
      if storedPrintRecord.Err? {
        MatchListErrStays(allUsers, i + 1, phrase.value, file.value, findPrint, parse, verify);
        return Response(500, Error(Failure));
      }
      if storedPrintRecord.value.Some? {
        var storedPrint := parse(storedPrintRecord.value.value);
        if storedPrint.Err? {
          MatchListErrStays(allUsers, i + 1, phrase.value, file.value, findPrint, parse, verify);
          return Response(500, Error(Failure));
        }
        var result := verify(file.value, phrase.value, storedPrint.value);
        if result.Err? {
          MatchListErrStays(allUsers, i + 1, phrase.value, file.value, findPrint, parse, verify);
          return Response(500, Error(Failure));
        }
        if result.value.success {
          matches := matches + [Match(user.id, user.username, result.value.confidence)];
        }
      }
    }
    assert allUsers[..|allUsers|] == allUsers;
    var sorted := new Match[|matches|](k requires 0 <= k < |matches| => matches[k]);
    assert sorted[..] == matches;
    SortByConfidence(sorted);
    response := Response(200, Matches(sorted[..], "Identification completed with " + NatToString(|matches|) + " matches"));
  }

  /** Once a prefix of the users throws, the whole loop does. */
  lemma {:induction false} MatchListErrStays<P>(users: seq<UserRow>, n: nat, phrase: string, sample: seq<byte>,
                                                findPrint: (string, string) -> Result<Option<string>>,
                                                parse: string -> Result<P>,
                                                verify: (seq<byte>, string, P) -> Result<VoiceResult>)
    requires n <= |users|
    requires MatchList(users[..n], phrase, sample, findPrint, parse, verify).Err?
    ensures MatchList(users, phrase, sample, findPrint, parse, verify).Err?
    decreases |users| - n
  {
    if n < |users| {
      assert users[..n + 1][..n] == users[..n];
      MatchListErrStays(users, n + 1, phrase, sample, findPrint, parse, verify);
    } else {
      assert users[..n] == users;
    }
  }
}

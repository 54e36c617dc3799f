/**
 * Members who are probably one person under two addresses: the same mailbox written differently, or
 * one typed character apart. Addresses are trimmed and lowercased already, with no surrogate pairs.
 */
module TypoTwins {
  import opened Options

  // ---------------------------------------------------------------- one edit apart

  /** Where `longer` first has a character `shorter` does not have there; its length if nowhere. */
  function FirstDifference(shorter: string, longer: string, from: nat := 0): (index: nat)
    requires from <= |longer|
    ensures from <= index <= |longer| && (from <= |shorter| ==> index <= |shorter|)
    ensures forall k | from <= k < index :: k < |shorter| && shorter[k] == longer[k]
    ensures index < |longer| ==> index >= |shorter| || shorter[index] != longer[index]
    decreases |longer| - from
  {
    if from == |longer| || from >= |shorter| || shorter[from] != longer[from] then from
    else FirstDifference(shorter, longer, from + 1)
  }

  /** `isOneEditApart`: only the first difference is looked at. */
  predicate IsOneEditApart(a: string, b: string) {
    if a == b then false else
    var shorter, longer := if |a| <= |b| then a else b, if |a| <= |b| then b else a;
    if |longer| - |shorter| > 1 then false else
    var first := FirstDifference(shorter, longer);
    if first == |longer| then |longer| - |shorter| == 1
    else if |shorter| == |longer| then shorter[first + 1..] == longer[first + 1..]
    else first <= |shorter| && shorter[first..] == longer[first + 1..]
  }

  /** `b` is `a` with the character at a place replaced by another. */
  predicate Substitutes(a: string, b: string, i: nat) {
    i < |a| == |b| && a[i] != b[i] && a[..i] == b[..i] && a[i + 1..] == b[i + 1..]
  }

  /** `longer` is `shorter` with one character put in at a place. */
  predicate Inserts(shorter: string, longer: string, i: nat) {
    i <= |shorter| && |longer| == |shorter| + 1 && longer[..i] == shorter[..i] && longer[i + 1..] == shorter[i..]
  }

  /** One substitution, insertion or deletion, anywhere, turns one text into the other. */
  ghost predicate OneEdit(a: string, b: string) {
    exists i: nat :: Substitutes(a, b, i) || Inserts(a, b, i) || Inserts(b, a, i)
  }

  /** A character put in anywhere shows at the first difference. */
  lemma InsertionShowsFirst(shorter: string, longer: string, i: nat)
    requires Inserts(shorter, longer, i)
    ensures var first := FirstDifference(shorter, longer);
            first <= |shorter| && Inserts(shorter, longer, first)
  {
    var first := FirstDifference(shorter, longer);
    SameBefore(longer, shorter, i);
    assert first >= i;
    forall k | i <= k < |shorter| ensures longer[k + 1] == shorter[k] {
      assert longer[i + 1..][k - i] == shorter[i..][k - i];
    }
    assert longer[..first] == shorter[..first];
    assert longer[first + 1..] == shorter[first..];
  }

  lemma SameBefore(a: string, b: string, i: nat)
    requires i <= |a| && i <= |b| && a[..i] == b[..i]
    ensures forall k | 0 <= k < i :: a[k] == b[k]
  {
    forall k | 0 <= k < i ensures a[k] == b[k] {
      assert a[..i][k] == b[..i][k];
    }
  }

  /** A character replaced anywhere is the first difference. */
  lemma SubstitutionShowsFirst(a: string, b: string, i: nat)
    requires Substitutes(a, b, i)
    ensures FirstDifference(a, b) == i
  {
    SameBefore(a, b, i);
  }

  lemma SubstitutesBack(a: string, b: string, i: nat)
    requires Substitutes(a, b, i)
    ensures Substitutes(b, a, i)
  {
  }

  /** Checking at the first difference is complete: it holds exactly when one edit does it. */
  lemma OneEditApartMeans(a: string, b: string)
    ensures IsOneEditApart(a, b) <==> OneEdit(a, b)
  {
    var shorter, longer := if |a| <= |b| then a else b, if |a| <= |b| then b else a;
    var first := FirstDifference(shorter, longer);
    if OneEdit(a, b) {
      var i: nat :| Substitutes(a, b, i) || Inserts(a, b, i) || Inserts(b, a, i);
      if Substitutes(a, b, i) {
        SubstitutionShowsFirst(a, b, i);
      } else {
        InsertionShowsFirst(shorter, longer, i);
      }
    }
    if IsOneEditApart(a, b) {
      if |a| == |b| {
        assert Substitutes(a, b, first);
      } else {
        assert Inserts(shorter, longer, first);
      }
    }
  }

  /** The relation does not depend on which address is asked about. */
  lemma OneEditApartIsSymmetric(a: string, b: string)
    ensures IsOneEditApart(a, b) <==> IsOneEditApart(b, a)
    ensures !IsOneEditApart(a, a)
  {
    OneEditApartMeans(a, b);
    OneEditApartMeans(b, a);
    if i: nat :| Substitutes(a, b, i) {
      SubstitutesBack(a, b, i);
    } else if i: nat :| Substitutes(b, a, i) {
      SubstitutesBack(b, a, i);
    }
  }

  // ---------------------------------------------------------------- one mailbox

  /** One past the last `@`, or zero when there is none. */
  function PastLastAt(email: string): (n: nat)
    ensures n <= |email| && (n > 0 ==> email[n - 1] == '@') && '@' !in email[n..]
  {
    if |email| == 0 then 0
    else if email[|email| - 1] == '@' then |email|
    else
      assert forall n | 0 <= n <= |email| - 1 :: email[n..] == email[..|email| - 1][n..] + [email[|email| - 1]];
      PastLastAt(email[..|email| - 1])
  }

  /** The mailbox before any `+`, without its dots. */
  function Mailbox(local: string): (mailbox: string)
    ensures '.' !in mailbox && '+' !in mailbox
  {
    if |local| == 0 || local[0] == '+' then ""
    else if local[0] == '.' then Mailbox(local[1..])
    else [local[0]] + Mailbox(local[1..])
  }

  function Canonicalize(email: string): string {
    var at := PastLastAt(email);
    if at < 2 then email else Mailbox(email[..at - 1]) + "@" + email[at..]
  }

  lemma NoAtAfter(email: string, n: nat)
    requires n <= |email| && '@' !in email[n..]
    ensures forall k | n <= k < |email| :: email[k] != '@'
  {
    forall k | n <= k < |email| ensures email[k] != '@' {
      assert email[k] == email[n..][k - n];
    }
  }

  lemma PastLastAtIs(email: string, at: nat)
    requires 0 < at <= |email| && email[at - 1] == '@' && '@' !in email[at..]
    ensures PastLastAt(email) == at
  {
    NoAtAfter(email, PastLastAt(email));
    NoAtAfter(email, at);
  }

  lemma CanonicalOf(local: string, domain: string)
    requires |local| > 0 && '@' !in domain
    ensures Canonicalize(local + "@" + domain) == Mailbox(local) + "@" + domain
  {
    var email := local + "@" + domain;
    assert email[|local| + 1..] == domain && email[..|local|] == local;
    PastLastAtIs(email, |local| + 1);
    hide PastLastAt, Mailbox;
  }

  lemma {:induction false} MailboxIsPlain(local: string)
    requires '.' !in local && '+' !in local
    ensures Mailbox(local) == local
    decreases |local|
  {
    if |local| > 0 {
      assert local == [local[0]] + local[1..];
      MailboxIsPlain(local[1..]);
    }
  }

  /** The canonical form is one: taking it again changes nothing. */
  lemma CanonicalIsFixed(email: string)
    ensures Canonicalize(Canonicalize(email)) == Canonicalize(email)
  {
    var at := PastLastAt(email);
    if at >= 2 {
      var mailbox, domain := Mailbox(email[..at - 1]), email[at..];
      var canonical := mailbox + "@" + domain;
      assert canonical[|mailbox| + 1..] == domain && canonical[..|mailbox|] == mailbox;
      PastLastAtIs(canonical, |mailbox| + 1);
      MailboxIsPlain(mailbox);
    }
  }

  lemma {:induction false} MailboxDropsTag(name: string, tag: string)
    requires '+' !in name
    ensures Mailbox(name + "+" + tag) == Mailbox(name)
    decreases |name|
  {
    if |name| > 0 {
      assert (name + "+" + tag)[1..] == name[1..] + "+" + tag;
      assert name == [name[0]] + name[1..];
      MailboxDropsTag(name[1..], tag);
    }
  }

  /** A tag makes no other mailbox, whatever it says. */
  lemma TagsMakeNoMailbox(name: string, tag: string, domain: string)
    requires '+' !in name && |name| > 0 && '@' !in domain
    ensures Canonicalize(name + "+" + tag + "@" + domain) == Canonicalize(name + "@" + domain)
  {
    CanonicalOf(name + "+" + tag, domain);
    CanonicalOf(name, domain);
    MailboxDropsTag(name, tag);
    hide Canonicalize, Mailbox;
  }

  lemma {:induction false} MailboxDropsDot(before: string, after: string)
    requires '+' !in before
    ensures Mailbox(before + "." + after) == Mailbox(before + after)
    decreases |before|
  {
    if |before| == 0 {
      assert before + "." + after == "." + after && before + after == after;
      assert ("." + after)[1..] == after;
    } else {
      assert before == [before[0]] + before[1..];
      assert (before + "." + after)[1..] == before[1..] + "." + after && (before + after)[1..] == before[1..] + after;
      MailboxDropsDot(before[1..], after);
    }
  }

  /** A dot makes no other mailbox, wherever it stands before a tag. */
  lemma DotsMakeNoMailbox(before: string, after: string, domain: string)
    requires '+' !in before && |before| + |after| > 0 && '@' !in domain
    ensures Canonicalize(before + "." + after + "@" + domain) == Canonicalize(before + after + "@" + domain)
  {
    CanonicalOf(before + "." + after, domain);
    CanonicalOf(before + after, domain);
    MailboxDropsDot(before, after);
    hide Canonicalize, Mailbox;
  }

  /** Addresses written without a dot or a tag are one mailbox only when they are one address. */
  lemma PlainMailboxesDiffer(a: string, b: string, x: string, y: string)
    requires |a| > 0 && |b| > 0 && '.' !in a && '+' !in a && '.' !in b && '+' !in b && '@' !in x && '@' !in y
    ensures Canonicalize(a + "@" + x) == a + "@" + x
    ensures Canonicalize(a + "@" + x) == Canonicalize(b + "@" + y) <==> a + "@" + x == b + "@" + y
  {
    CanonicalOf(a, x);
    CanonicalOf(b, y);
    MailboxIsPlain(a);
    MailboxIsPlain(b);
    hide Canonicalize, Mailbox;
  }

  // ---------------------------------------------------------------- twins

  predicate Alike(a: string, b: string) {
    Canonicalize(b) == Canonicalize(a) || IsOneEditApart(Canonicalize(b), Canonicalize(a))
  }

  /** The other candidates one looks like, in list order. */
  function Matches(emails: seq<string>, index: nat, upto: nat): (matches: seq<string>)
    requires index < |emails| && upto <= |emails|
  {
    if upto == 0 then []
    else
      var front := Matches(emails, index, upto - 1);
      if upto - 1 != index && Alike(emails[index], emails[upto - 1]) then front + [emails[upto - 1]] else front
  }

  lemma {:induction false} MatchesMean(emails: seq<string>, index: nat, upto: nat, email: string)
    requires index < |emails| && upto <= |emails|
    ensures email in Matches(emails, index, upto)
            <==> exists other ::
                   0 <= other < upto && other != index && emails[other] == email && Alike(emails[index], email)
    decreases upto
  {
    hide Alike;
    if upto > 0 {
      MatchesMean(emails, index, upto - 1, email);
    }
  }

  /** One mailbox in two spellings, or two mailboxes one edit apart. */
  ghost predicate Twins(a: string, b: string) {
    Canonicalize(a) == Canonicalize(b) || OneEdit(Canonicalize(a), Canonicalize(b))
  }

  lemma AlikeMeans(a: string, b: string)
    ensures Alike(a, b) <==> Twins(a, b)
  {
    hide Canonicalize, IsOneEditApart, OneEdit;
    OneEditApartMeans(Canonicalize(b), Canonicalize(a));
    OneEditApartMeans(Canonicalize(a), Canonicalize(b));
    OneEditApartIsSymmetric(Canonicalize(a), Canonicalize(b));
  }

  /** The places are in order, hold the matches one for one, and are all those of the other twins. */
  ghost predicate AreTheTwins(emails: seq<string>, index: nat, upto: nat, matches: seq<string>, places: seq<nat>)
    requires index < |emails| && upto <= |emails|
  {
    && |matches| == |places|
    && (forall j | 0 <= j < |places| :: places[j] < upto && matches[j] == emails[places[j]])
    && (forall j, k | 0 <= j < k < |places| :: places[j] < places[k])
    && (forall k: nat | k < upto :: k in places <==> k != index && Twins(emails[index], emails[k]))
  }

  lemma OneMoreTwin(emails: seq<string>, index: nat, n: nat, matches: seq<string>, places: seq<nat>)
    requires index < |emails| && n < |emails| && AreTheTwins(emails, index, n, matches, places)
    requires n != index && Twins(emails[index], emails[n])
    ensures AreTheTwins(emails, index, n + 1, matches + [emails[n]], places + [n])
  {
    hide Twins;
    forall k: nat | k < n + 1 ensures k in places + [n] <==> k != index && Twins(emails[index], emails[k]) {
      assert k in places + [n] <==> k in places || k == n;
    }
  }

  lemma NoMoreTwin(emails: seq<string>, index: nat, n: nat, matches: seq<string>, places: seq<nat>)
    requires index < |emails| && n < |emails| && AreTheTwins(emails, index, n, matches, places)
    requires n == index || !Twins(emails[index], emails[n])
    ensures AreTheTwins(emails, index, n + 1, matches, places)
  {
    hide Twins;
    assert n !in places;
  }

  /** The matches are every other candidate that is a twin, once for each time it is listed and in list order. */
  lemma {:induction false} MatchesAreTheTwins(emails: seq<string>, index: nat, upto: nat) returns (places: seq<nat>)
    requires index < |emails| && upto <= |emails|
    ensures AreTheTwins(emails, index, upto, Matches(emails, index, upto), places)
    decreases upto
  {
    hide Twins, Alike, Canonicalize, IsOneEditApart, OneEdit;
    places := [];
    if upto > 0 {
      hide AreTheTwins;
      var front := Matches(emails, index, upto - 1);
      places := MatchesAreTheTwins(emails, index, upto - 1);
      AlikeMeans(emails[index], emails[upto - 1]);
      if upto - 1 != index && Alike(emails[index], emails[upto - 1]) {
        OneMoreTwin(emails, index, upto - 1, front, places);
        places := places + [upto - 1];
      } else {
        NoMoreTwin(emails, index, upto - 1, front, places);
      }
    }
  }

  /** An address listed twice is a twin of its other self. */
  lemma RepeatsAreTwins(emails: seq<string>, i: nat, k: nat)
    requires i < |emails| && k < |emails| && i != k && emails[i] == emails[k]
    ensures Matches(emails, i, |emails|) != []
  {
    MatchesMean(emails, i, |emails|, emails[k]);
    hide Matches, Canonicalize, IsOneEditApart;
    assert Alike(emails[i], emails[k]);
  }

  /** No later candidate below a bound has the address. */
  predicate LastOfItsAddress(emails: seq<string>, i: nat, bound: nat)
    requires i < bound <= |emails|
  {
    forall k | i < k < bound :: emails[k] != emails[i]
  }

  /** An address is listed exactly when it has matches, with those of the last candidate that carries it. */
  method FindDuplicateTwins(emails: seq<string>) returns (twins: map<string, seq<string>>)
    ensures forall i | 0 <= i < |emails| && LastOfItsAddress(emails, i, |emails|) ::
              && (emails[i] in twins <==> Matches(emails, i, |emails|) != [])
              && (emails[i] in twins ==> twins[emails[i]] == Matches(emails, i, |emails|))
    ensures forall email | email in twins :: email in emails
  {
    hide Matches;
    twins := map[];
    for index := 0 to |emails|
      invariant forall i | 0 <= i < index && LastOfItsAddress(emails, i, index) ::
                  && (emails[i] in twins <==> Matches(emails, i, |emails|) != [])
                  && (emails[i] in twins ==> twins[emails[i]] == Matches(emails, i, |emails|))
      invariant forall email | email in twins :: email in emails[..index]
    {
      var matches := Matches(emails, index, |emails|);
      forall i | 0 <= i < index && LastOfItsAddress(emails, i, index + 1) ensures LastOfItsAddress(emails, i, index) {
      }
      if |matches| > 0 {
        twins := twins[emails[index] := matches];
      } else if emails[index] in emails[..index] {
        var i :| 0 <= i < index && emails[..index][i] == emails[index];
        RepeatsAreTwins(emails, index, i);
      }
    }
  }

  /** Twins are mutual, and an address is its own twin exactly when it is listed again. */
  lemma TwinsAreMutual(emails: seq<string>, i: nat, j: nat)
    requires i < |emails| && j < |emails|
    ensures emails[j] in Matches(emails, i, |emails|) <==> emails[i] in Matches(emails, j, |emails|)
    ensures emails[i] in Matches(emails, i, |emails|)
            <==> exists k :: 0 <= k < |emails| && k != i && emails[k] == emails[i]
  {
    OneEditApartIsSymmetric(Canonicalize(emails[i]), Canonicalize(emails[j]));
    MatchesMean(emails, i, |emails|, emails[j]);
    MatchesMean(emails, j, |emails|, emails[i]);
    MatchesMean(emails, i, |emails|, emails[i]);
    hide Canonicalize, IsOneEditApart, Matches;
    assert Alike(emails[i], emails[i]);
  }
}

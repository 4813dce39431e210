/**
 * The data-shaping helpers of the Firebase utility layer: the three expense
 * split rules, the balance writes that adding an expense performs, and the
 * normalisation and `hasApp` tagging of the device's contacts. Database,
 * permission and network calls are replaced by the values they deliver.
 */
module FirebaseUtils {
  import opened Wrappers

  type UserId = string

  // ---------------------------------------------------------------------------
  // Expense splits
  // ---------------------------------------------------------------------------

  /** One `{ userId, contribution }` record produced by a split rule. */
  datatype Contribution = Contribution(userId: UserId, contribution: real)

  /** Sum of the contributions in a list of records. */
  function Total(cs: seq<Contribution>): real
  {
    if cs == [] then 0.0 else cs[0].contribution + Total(cs[1..])
  }

  /** Sum of the values of a list of `[userId, value]` entries. */
  function ValueSum(entries: seq<(UserId, real)>): real
  {
    if entries == [] then 0.0 else entries[0].1 + ValueSum(entries[1..])
  }

  /** Every participant, in order, paired with the same `share`. */
  function EqualShares(participants: seq<UserId>, share: real): (r: seq<Contribution>)
    ensures |r| == |participants|
    ensures forall i :: 0 <= i < |r| ==> r[i] == Contribution(participants[i], share)
  {
    if participants == [] then []
    else [Contribution(participants[0], share)] + EqualShares(participants[1..], share)
  }

  /**
   * splitExpenseEqually: one record per participant, in input order, each
   * with `amount / participants.length`. An empty list maps to no records
   * (the division by zero is never observed).
   */
  function SplitExpenseEqually(amount: real, participants: seq<UserId>): (r: seq<Contribution>)
    ensures |r| == |participants|
    ensures forall i :: 0 <= i < |r| ==> r[i].userId == participants[i]
    ensures forall i :: 0 <= i < |r| ==> r[i].contribution * (|participants| as real) == amount
  {
    if |participants| == 0 then []
    else
      var n := |participants| as real;
      var share := amount / n;
      assert share * n == amount;
      EqualShares(participants, share)
  }

  lemma {:induction false} TotalOfEqualShares(participants: seq<UserId>, share: real)
    ensures Total(EqualShares(participants, share)) == (|participants| as real) * share
  {
    if participants != [] {
      TotalOfEqualShares(participants[1..], share);
    }
  }

  /** With exact arithmetic the equal shares of a non-empty list add up to the amount. */
  lemma SplitExpenseEquallyTotal(amount: real, participants: seq<UserId>)
    requires |participants| > 0
    ensures Total(SplitExpenseEqually(amount, participants)) == amount
  {
    var n := |participants| as real;
    TotalOfEqualShares(participants, amount / n);
  }

  /** All records of an equal split carry the same contribution. */
  lemma SplitExpenseEquallyUniform(amount: real, participants: seq<UserId>, i: int, j: int)
    requires 0 <= i < |participants| && 0 <= j < |participants|
    ensures SplitExpenseEqually(amount, participants)[i].contribution
         == SplitExpenseEqually(amount, participants)[j].contribution
  {
    var r := SplitExpenseEqually(amount, participants);
    var n := |participants| as real;
    assert r[i].contribution * n == r[j].contribution * n;
  }

  /**
   * splitExpenseUnequallyByAmount: every `[userId, contribution]` entry is
   * passed through unchanged; `amount` is not consulted.
   */
  function SplitExpenseUnequallyByAmount(amount: real, contributions: seq<(UserId, real)>): (r: seq<Contribution>)
    ensures |r| == |contributions|
    ensures forall i :: 0 <= i < |r| ==> r[i].userId == contributions[i].0 && r[i].contribution == contributions[i].1
  {
    if contributions == [] then []
    else [Contribution(contributions[0].0, contributions[0].1)]
         + SplitExpenseUnequallyByAmount(amount, contributions[1..])
  }

  /** The records of a split by amount add up to the entries, whatever `amount` is. */
  lemma {:induction false} SplitExpenseUnequallyByAmountTotal(amount: real, contributions: seq<(UserId, real)>)
    ensures Total(SplitExpenseUnequallyByAmount(amount, contributions)) == ValueSum(contributions)
  {
    if contributions != [] {
      SplitExpenseUnequallyByAmountTotal(amount, contributions[1..]);
    }
  }

  /** Nothing rejects entries that do not add up to the amount: 40 + 50 against 100. */
  lemma SplitExpenseUnequallyByAmountUnchecked()
    ensures Total(SplitExpenseUnequallyByAmount(100.0, [("U1", 40.0), ("U2", 50.0)])) == 90.0
  {
    SplitExpenseUnequallyByAmountTotal(100.0, [("U1", 40.0), ("U2", 50.0)]);
  }

  /**
   * splitExpenseUnequallyByPercentage: every `[userId, percentage]` entry
   * becomes a record worth `amount * percentage / 100`, in input order.
   */
  function SplitExpenseUnequallyByPercentage(amount: real, percentages: seq<(UserId, real)>): (r: seq<Contribution>)
    ensures |r| == |percentages|
    ensures forall i :: 0 <= i < |r| ==> r[i].userId == percentages[i].0
    ensures forall i :: 0 <= i < |r| ==> r[i].contribution * 100.0 == amount * percentages[i].1
  {
    if percentages == [] then []
    else [Contribution(percentages[0].0, (amount * percentages[0].1) / 100.0)]
         + SplitExpenseUnequallyByPercentage(amount, percentages[1..])
  }

  /** The records of a percentage split add up to `amount * (sum of percentages) / 100`. */
  lemma {:induction false} SplitExpenseUnequallyByPercentageTotal(amount: real, percentages: seq<(UserId, real)>)
    ensures Total(SplitExpenseUnequallyByPercentage(amount, percentages)) * 100.0 == amount * ValueSum(percentages)
  {
    if percentages != [] {
      var p := percentages[0].1;
      var rest := percentages[1..];
      SplitExpenseUnequallyByPercentageTotal(amount, rest);
      assert Total(SplitExpenseUnequallyByPercentage(amount, percentages)) * 100.0
          == amount * p + Total(SplitExpenseUnequallyByPercentage(amount, rest)) * 100.0;
      assert amount * ValueSum(percentages) == amount * p + amount * ValueSum(rest);
    }
  }

  /**
   * For a non-zero amount, a percentage split reconciles with the amount
   * exactly when the percentages add up to 100; otherwise it silently does not.
   */
  lemma SplitExpenseUnequallyByPercentageReconciles(amount: real, percentages: seq<(UserId, real)>)
    requires amount != 0.0
    ensures Total(SplitExpenseUnequallyByPercentage(amount, percentages)) == amount
        <==> ValueSum(percentages) == 100.0
  {
    SplitExpenseUnequallyByPercentageTotal(amount, percentages);
    var t := Total(SplitExpenseUnequallyByPercentage(amount, percentages));
    var d := ValueSum(percentages) - 100.0;
    assert t * 100.0 - amount * 100.0 == amount * d;
  }

  // ---------------------------------------------------------------------------
  // Balance writes of addExpense
  // ---------------------------------------------------------------------------

  /** The balance document `users/{userId}/balances/{counterparty}`. */
  datatype BalanceKey = BalanceKey(userId: UserId, counterparty: UserId)

  /** The `amount` field of every balance document, by document path. */
  type Balances = map<BalanceKey, real>

  /** The keys the participants of an expense created by `createdBy` write to. */
  function WrittenKeys(createdBy: UserId, participants: seq<Contribution>): set<BalanceKey>
  {
    set i | 0 <= i < |participants| :: BalanceKey(participants[i].userId, createdBy)
  }

  /** True when no participant after position `i` has the same user id. */
  predicate LastFor(participants: seq<Contribution>, i: int)
    requires 0 <= i < |participants|
  {
    forall j :: i < j < |participants| ==> participants[j].userId != participants[i].userId
  }

  /**
   * The batch after each participant, in order, has set the amount of
   * `(participant.userId, createdBy)` to its contribution.
   */
  function WriteBalances(balances: Balances, createdBy: UserId, participants: seq<Contribution>): (r: Balances)
    ensures forall k | k in balances :: k in r
    ensures participants != [] ==>
              var last := participants[|participants| - 1];
              BalanceKey(last.userId, createdBy) in r && r[BalanceKey(last.userId, createdBy)] == last.contribution
    decreases |participants|
  {
    if participants == [] then balances
    else WriteBalances(balances[BalanceKey(participants[0].userId, createdBy) := participants[0].contribution],
                       createdBy, participants[1..])
  }

  /** The writes add exactly the participants' keys and keep every existing key. */
  lemma {:induction false} WriteBalancesKeys(balances: Balances, createdBy: UserId, participants: seq<Contribution>)
    ensures WriteBalances(balances, createdBy, participants).Keys
         == balances.Keys + WrittenKeys(createdBy, participants)
    decreases |participants|
  {
    if participants != [] {
      var k := BalanceKey(participants[0].userId, createdBy);
      WriteBalancesKeys(balances[k := participants[0].contribution], createdBy, participants[1..]);
      assert WrittenKeys(createdBy, participants) == {k} + WrittenKeys(createdBy, participants[1..]) by {
        forall key | key in WrittenKeys(createdBy, participants)
          ensures key in {k} + WrittenKeys(createdBy, participants[1..])
        {
          var i :| 0 <= i < |participants| && key == BalanceKey(participants[i].userId, createdBy);
          if i > 0 { assert participants[1..][i - 1] == participants[i]; }
        }
        forall key | key in WrittenKeys(createdBy, participants[1..])
          ensures key in WrittenKeys(createdBy, participants)
        {
          var i :| 0 <= i < |participants[1..]| && key == BalanceKey(participants[1..][i].userId, createdBy);
          assert participants[1..][i] == participants[i + 1];
        }
      }
    }
  }

  lemma NotWritten(createdBy: UserId, participants: seq<Contribution>, k: BalanceKey)
    requires forall j :: 0 <= j < |participants| ==> BalanceKey(participants[j].userId, createdBy) != k
    ensures k !in WrittenKeys(createdBy, participants)
  {
  }

  /** A key no participant writes keeps its previous amount. */
  lemma {:induction false} WriteBalancesOtherKeys(balances: Balances, createdBy: UserId,
                                                   participants: seq<Contribution>, k: BalanceKey)
    requires k in balances && k !in WrittenKeys(createdBy, participants)
    ensures k in WriteBalances(balances, createdBy, participants)
    ensures WriteBalances(balances, createdBy, participants)[k] == balances[k]
    decreases |participants|
  {
    if participants != [] {
      var k0 := BalanceKey(participants[0].userId, createdBy);
      assert k != k0 by { assert k0 in WrittenKeys(createdBy, participants); }
      forall j | 0 <= j < |participants[1..]|
        ensures BalanceKey(participants[1..][j].userId, createdBy) != k
      {
        assert participants[1..][j] == participants[j + 1];
        assert BalanceKey(participants[j + 1].userId, createdBy) in WrittenKeys(createdBy, participants);
      }
      NotWritten(createdBy, participants[1..], k);
      WriteBalancesOtherKeys(balances[k0 := participants[0].contribution], createdBy, participants[1..], k);
    }
  }

  /**
   * The amount under `(participants[i].userId, createdBy)` is the contribution
   * of the last participant with that user id: earlier writes are overwritten.
   */
  lemma {:induction false} WriteBalancesLastWins(balances: Balances, createdBy: UserId,
                                                  participants: seq<Contribution>, i: int)
    requires 0 <= i < |participants| && LastFor(participants, i)
    ensures BalanceKey(participants[i].userId, createdBy) in WriteBalances(balances, createdBy, participants)
    ensures WriteBalances(balances, createdBy, participants)[BalanceKey(participants[i].userId, createdBy)]
         == participants[i].contribution
    decreases |participants|
  {
    var k0 := BalanceKey(participants[0].userId, createdBy);
    var b1 := balances[k0 := participants[0].contribution];
    var rest := participants[1..];
    if i == 0 {
      var k := BalanceKey(participants[0].userId, createdBy);
      forall j | 0 <= j < |rest| ensures BalanceKey(rest[j].userId, createdBy) != k {
        assert rest[j] == participants[j + 1];
      }
      NotWritten(createdBy, rest, k);
      WriteBalancesOtherKeys(b1, createdBy, rest, k);
    } else {
      assert rest[i - 1] == participants[i];
      assert LastFor(rest, i - 1) by {
        forall j | i - 1 < j < |rest| ensures rest[j].userId != rest[i - 1].userId {
          assert rest[j] == participants[j + 1];
        }
      }
      WriteBalancesLastWins(b1, createdBy, rest, i - 1);
    }
  }

  /**
   * The balance writes overwrite rather than accumulate: what the batch leaves
   * under a written key does not depend on what was there before.
   */
  lemma WriteBalancesOverwrite(before1: Balances, before2: Balances, createdBy: UserId,
                               participants: seq<Contribution>, k: BalanceKey)
    requires k in WrittenKeys(createdBy, participants)
    ensures k in WriteBalances(before1, createdBy, participants)
    ensures k in WriteBalances(before2, createdBy, participants)
    ensures WriteBalances(before1, createdBy, participants)[k] == WriteBalances(before2, createdBy, participants)[k]
  {
    var i :| 0 <= i < |participants| && k == BalanceKey(participants[i].userId, createdBy);
    while !LastFor(participants, i)
      invariant 0 <= i < |participants| && k == BalanceKey(participants[i].userId, createdBy)
      decreases |participants| - i
    {
      var j :| i < j < |participants| && participants[j].userId == participants[i].userId;
      i := j;
    }
    WriteBalancesLastWins(before1, createdBy, participants, i);
    WriteBalancesLastWins(before2, createdBy, participants, i);
  }

  /**
   * A creator who is also a participant gets a balance entry against
   * themselves: the writes do not skip the payer.
   */
  lemma WriteBalancesSelfEntry(balances: Balances, createdBy: UserId, participants: seq<Contribution>, i: int)
    requires 0 <= i < |participants| && participants[i].userId == createdBy
    ensures BalanceKey(createdBy, createdBy) in WriteBalances(balances, createdBy, participants)
  {
    WriteBalancesKeys(balances, createdBy, participants);
    assert BalanceKey(participants[i].userId, createdBy) in WrittenKeys(createdBy, participants);
  }

  /**
   * The balance update of addExpense: for each participant in order, set the
   * amount of `users/{participant.userId}/balances/{createdBy}` to the
   * participant's contribution.
   */
  method AddExpenseBalances(balances: Balances, createdBy: UserId, participants: seq<Contribution>)
    returns (batch: Balances)
    ensures batch == WriteBalances(balances, createdBy, participants)
    ensures batch.Keys == balances.Keys + WrittenKeys(createdBy, participants)
    ensures forall i :: 0 <= i < |participants| && LastFor(participants, i) ==>
              batch[BalanceKey(participants[i].userId, createdBy)] == participants[i].contribution
    ensures forall k :: k in balances && k !in WrittenKeys(createdBy, participants) ==>
              batch[k] == balances[k]
  {
    batch := balances;
    var i := 0;
    while i < |participants|
      invariant 0 <= i <= |participants|
      invariant WriteBalances(batch, createdBy, participants[i..]) == WriteBalances(balances, createdBy, participants)
    {
      assert participants[i..][1..] == participants[i + 1..];
      batch := batch[BalanceKey(participants[i].userId, createdBy) := participants[i].contribution];
      i := i + 1;
    }
    assert participants[i..] == [];
    WriteBalancesKeys(balances, createdBy, participants);
    forall i | 0 <= i < |participants| && LastFor(participants, i)
      ensures batch[BalanceKey(participants[i].userId, createdBy)] == participants[i].contribution
    {
      WriteBalancesLastWins(balances, createdBy, participants, i);
    }
    forall k | k in balances && k !in WrittenKeys(createdBy, participants)
      ensures batch[k] == balances[k]
    {
      WriteBalancesOtherKeys(balances, createdBy, participants, k);
    }
  }

  // ---------------------------------------------------------------------------
  // Contacts
  // ---------------------------------------------------------------------------

  const UNKNOWN_NAME := "Unknown"
  const PLACEHOLDER_IMAGE := "https://via.placeholder.com/100"

  /** A contact as the device's address book delivers it. */
  datatype DeviceContact = DeviceContact(
    id: string,
    name: Option<string>,
    phoneNumbers: seq<Option<string>>,
    imageAvailable: bool,
    imageUri: string)

  /**
   * A contact as the application shows it. `hasApp` is `None` when the
   * contact was never tagged (the user document was missing).
   */
  datatype Contact = Contact(
    id: string,
    name: string,
    phoneNumber: Option<string>,
    image: string,
    hasApp: Option<bool>)

  /** The user document: its list of friend ids (a missing list reads as empty). */
  datatype UserDoc = UserDoc(friends: seq<UserId>)

  predicate HasPhoneNumber(c: DeviceContact)
  {
    |c.phoneNumbers| > 0
  }

  /** The contact built from a device contact that has a phone number. */
  function ToContact(c: DeviceContact): (r: Contact)
    requires HasPhoneNumber(c)
    ensures r.id == c.id && r.hasApp == None
    ensures r.phoneNumber == c.phoneNumbers[0]
    ensures c.name.Some? && c.name.value != "" ==> r.name == c.name.value
    ensures c.name.None? || c.name.value == "" ==> r.name == UNKNOWN_NAME
    ensures c.imageAvailable ==> r.image == c.imageUri
    ensures !c.imageAvailable ==> r.image == PLACEHOLDER_IMAGE
  {
    Contact(
      c.id,
      if c.name.Some? && c.name.value != "" then c.name.value else UNKNOWN_NAME,
      c.phoneNumbers[0],
      if c.imageAvailable then c.imageUri else PLACEHOLDER_IMAGE,
      None)
  }

  /** The device contacts that have a phone number, each turned into a contact. */
  function NormaliseContacts(data: seq<DeviceContact>): (r: seq<Contact>)
    ensures |r| <= |data|
    ensures forall k :: 0 <= k < |r| ==>
              exists i :: 0 <= i < |data| && HasPhoneNumber(data[i]) && r[k] == ToContact(data[i])
    ensures forall i :: 0 <= i < |data| && HasPhoneNumber(data[i]) ==> ToContact(data[i]) in r
    ensures forall k :: 0 <= k < |r| ==> r[k].hasApp.None? && r[k].name != ""
    ensures (forall i :: 0 <= i < |data| ==> HasPhoneNumber(data[i])) ==> |r| == |data|
  {
    if data == [] then []
    else
      var rest := NormaliseContacts(data[1..]);
      assert forall i :: 1 <= i < |data| ==> data[i] == data[1..][i - 1];
      if HasPhoneNumber(data[0]) then [ToContact(data[0])] + rest else rest
  }

  /** Normalisation keeps the original order: it distributes over concatenation. */
  lemma {:induction false} NormaliseContactsAppend(a: seq<DeviceContact>, b: seq<DeviceContact>)
    ensures NormaliseContacts(a + b) == NormaliseContacts(a) + NormaliseContacts(b)
  {
    if a == [] {
      assert a + b == b;
    } else {
      assert (a + b)[0] == a[0];
      assert (a + b)[1..] == a[1..] + b;
      NormaliseContactsAppend(a[1..], b);
    }
  }

  /**
   * The contacts with `hasApp` set: true exactly when the contact's phone
   * number is among the friends' phone numbers; nothing else changes.
   */
  function TagHasApp(contacts: seq<Contact>, friendPhoneNumbers: seq<Option<string>>): (r: seq<Contact>)
    ensures |r| == |contacts|
    ensures forall i :: 0 <= i < |r| ==> r[i].hasApp == Some(contacts[i].phoneNumber in friendPhoneNumbers)
    ensures forall i :: 0 <= i < |r| ==>
              (r[i].hasApp == Some(true) <==> contacts[i].phoneNumber in friendPhoneNumbers)
    ensures forall i :: 0 <= i < |r| ==> r[i].hasApp.Some? && r[i].(hasApp := None) == contacts[i].(hasApp := None)
  {
    seq(|contacts|, i requires 0 <= i < |contacts| =>
      contacts[i].(hasApp := Some(contacts[i].phoneNumber in friendPhoneNumbers)))
  }

  /** The contacts with `hasApp` set to false; nothing else changes. */
  function TagNoApp(contacts: seq<Contact>): (r: seq<Contact>)
    ensures |r| == |contacts|
    ensures forall i :: 0 <= i < |r| ==> r[i].hasApp == Some(false) && r[i].(hasApp := None) == contacts[i].(hasApp := None)
  {
    seq(|contacts|, i requires 0 <= i < |contacts| => contacts[i].(hasApp := Some(false)))
  }

  /**
   * The value fetchContacts resolves to. `granted` is the outcome of the
   * permission request (a refusal is caught and yields no contacts), `data`
   * the device's address book, `userDoc` the user document (`None` when it
   * does not exist) and `friendPhoneNumbers` the phone numbers of the friend
   * documents the query returns.
   */
  function FetchContacts(granted: bool, data: seq<DeviceContact>, userDoc: Option<UserDoc>,
                         friendPhoneNumbers: seq<Option<string>>): (r: seq<Contact>)
    ensures !granted ==> r == []
    ensures granted && userDoc.None? ==> r == NormaliseContacts(data)
    ensures granted && userDoc.Some? ==>
              |r| == |NormaliseContacts(data)|
              && forall i :: 0 <= i < |r| ==> r[i].(hasApp := None) == NormaliseContacts(data)[i]
    ensures granted && userDoc.Some? && userDoc.value.friends == [] ==>
              forall i :: 0 <= i < |r| ==> r[i].hasApp == Some(false)
    ensures granted && userDoc.Some? && userDoc.value.friends != [] ==>
              forall i :: 0 <= i < |r| ==>
                r[i].hasApp == Some(r[i].phoneNumber in friendPhoneNumbers)
  {
    if !granted || data == [] then []
    else
      var contacts := NormaliseContacts(data);
      match userDoc
      case None => contacts
      case Some(doc) =>
        if doc.friends == [] then TagNoApp(contacts)
        else TagHasApp(contacts, friendPhoneNumbers)
  }

  /**
   * A contact without a phone number is tagged as having the app whenever
   * some friend document lacks a phone number: `includes(undefined)` finds
   * the missing number.
   */
  lemma FetchContactsMissingNumberMatches(data: seq<DeviceContact>, friends: seq<UserId>,
                                          friendPhoneNumbers: seq<Option<string>>)
    requires friends != [] && None in friendPhoneNumbers
    ensures var r := FetchContacts(true, data, Some(UserDoc(friends)), friendPhoneNumbers);
            forall i :: 0 <= i < |r| && r[i].phoneNumber == None ==> r[i].hasApp == Some(true)
  {
  }

  /** A phone entry without a number yields a contact without one. */
  lemma FetchContactsMissingNumberExample(id: string, friends: seq<UserId>)
    requires friends != []
    ensures var r := FetchContacts(true, [DeviceContact(id, None, [None], false, "")], Some(UserDoc(friends)), [None]);
            |r| == 1 && r[0].phoneNumber == None && r[0].hasApp == Some(true)
  {
    var data := [DeviceContact(id, None, [None], false, "")];
    assert NormaliseContacts(data[1..]) == [];
    assert NormaliseContacts(data) == [ToContact(data[0])];
    FetchContactsMissingNumberMatches(data, friends, [None]);
  }

  /** Either every contact of a list is tagged or none is. */
  predicate UniformlyTagged(cs: seq<Contact>)
  {
    (forall c | c in cs :: c.hasApp.Some?) || (forall c | c in cs :: c.hasApp.None?)
  }

  /** fetchContacts tags all of its contacts or none of them. */
  lemma FetchContactsUniformlyTagged(granted: bool, data: seq<DeviceContact>, userDoc: Option<UserDoc>,
                                     friendPhoneNumbers: seq<Option<string>>)
    ensures UniformlyTagged(FetchContacts(granted, data, userDoc, friendPhoneNumbers))
  {
    var r := FetchContacts(granted, data, userDoc, friendPhoneNumbers);
    if granted && userDoc.Some? {
      forall c | c in r ensures c.hasApp.Some? {
        var i :| 0 <= i < |r| && r[i] == c;
      }
    } else {
      forall c | c in r ensures c.hasApp.None? {
        var i :| 0 <= i < |r| && r[i] == c;
      }
    }
  }
}

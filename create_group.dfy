/**
 * The Create Group screen: the selection of contacts the user builds up, the
 * validation that turns it into a new group's data, and the order in which
 * the loaded contacts are listed. The screen's state lives in a class whose
 * methods are the event handlers; the toggle and remove updates are functions.
 */
module CreateGroup {
  import opened Wrappers
  import opened FirebaseUtils

  const DEFAULT_GROUP_IMAGE := "https://via.placeholder.com/100"
  const DEFAULT_CONTACT_ICON := "https://via.placeholder.com/40"

  const ERROR_GROUP_NAME := "Please enter a group name"
  const ERROR_NO_CONTACT := "Please select at least one contact"
  const ERROR_CREATE_FAILED := "Failed to create group. Please try again."
  const ERROR_EMAIL := "Please enter a valid email address"

  /** The document handed to `createGroup`. */
  datatype GroupData = GroupData(name: string, image: string, members: seq<UserId>, createdBy: UserId)

  /** `item.hasApp` read as a condition: only an explicit `true` counts. */
  predicate HasApp(c: Contact)
  {
    c.hasApp == Some(true)
  }

  /** Some selected entry has this id. */
  predicate IsSelected(selected: seq<Contact>, id: string)
  {
    exists c | c in selected :: c.id == id
  }

  // ---------------------------------------------------------------------------
  // Selection updates
  // ---------------------------------------------------------------------------

  /** The selection without any entry whose id is `id`. */
  function WithoutId(selected: seq<Contact>, id: string): (r: seq<Contact>)
    ensures |r| <= |selected|
    ensures !IsSelected(r, id)
    ensures forall c | c in r :: c in selected
    ensures forall c | c in selected && c.id != id :: c in r
    ensures !IsSelected(selected, id) ==> r == selected
    ensures IsSelected(selected, id) ==> |r| < |selected|
  {
    if selected == [] then []
    else
      var rest := WithoutId(selected[1..], id);
      assert forall c | c in selected[1..] :: c in selected;
      if selected[0].id == id then rest else [selected[0]] + rest
  }

  /** Removing entries keeps the others in order: it distributes over concatenation. */
  lemma {:induction false} WithoutIdAppend(a: seq<Contact>, b: seq<Contact>, id: string)
    ensures WithoutId(a + b, id) == WithoutId(a, id) + WithoutId(b, id)
  {
    if a == [] {
      assert a + b == b;
    } else {
      assert (a + b)[0] == a[0];
      assert (a + b)[1..] == a[1..] + b;
      WithoutIdAppend(a[1..], b, id);
    }
  }

  /**
   * The update of toggleContactSelection: a contact whose id is selected is
   * removed (with every other entry of that id); otherwise it is appended.
   */
  function Toggle(selected: seq<Contact>, contact: Contact): (r: seq<Contact>)
    ensures IsSelected(r, contact.id) <==> !IsSelected(selected, contact.id)
    ensures !IsSelected(selected, contact.id) ==> r == selected + [contact]
    ensures IsSelected(selected, contact.id) ==> r == WithoutId(selected, contact.id)
    ensures IsSelected(selected, contact.id) ==>
              |r| < |selected|
              && (forall c | c in r :: c in selected)
              && (forall c | c in selected && c.id != contact.id :: c in r)
  {
    if IsSelected(selected, contact.id) then WithoutId(selected, contact.id)
    else
      assert contact in selected + [contact];
      selected + [contact]
  }

  /** Toggling a contact that is not selected twice restores the selection. */
  lemma ToggleTwice(selected: seq<Contact>, contact: Contact)
    requires !IsSelected(selected, contact.id)
    ensures Toggle(Toggle(selected, contact), contact) == selected
  {
    var once := Toggle(selected, contact);
    assert once == selected + [contact];
    WithoutIdAppend(selected, [contact], contact.id);
    assert WithoutId([contact], contact.id) == WithoutId([], contact.id);
  }

  /** The new entry handleAddByEmail builds from a typed-in address. */
  function EmailContact(email: string): (r: Contact)
    ensures r.id == email && r.name == email && r.image == DEFAULT_CONTACT_ICON
    ensures r.phoneNumber == None && r.hasApp == Some(false) && !HasApp(r)
  {
    Contact(email, email, None, DEFAULT_CONTACT_ICON, Some(false))
  }

  // ---------------------------------------------------------------------------
  // Group creation
  // ---------------------------------------------------------------------------

  /** The members list: the creator first, then the selected ids in selection order. */
  function MemberIds(uid: UserId, selected: seq<Contact>): (r: seq<UserId>)
    ensures |r| == |selected| + 1 && r[0] == uid
    ensures forall i :: 0 <= i < |selected| ==> r[i + 1] == selected[i].id
    ensures forall c | c in selected :: c.id in r
  {
    var r := [uid] + seq(|selected|, i requires 0 <= i < |selected| => selected[i].id);
    assert forall i :: 0 <= i < |selected| ==> r[i + 1] == selected[i].id;
    r
  }

  /**
   * The checks of handleCreateGroup, in order (a group name, then at least
   * one selected contact), and the group data built when both pass.
   */
  function ValidateGroup(groupName: string, groupImage: string, uid: UserId, selected: seq<Contact>)
    : (r: Result<GroupData, string>)
    ensures groupName == "" ==> r == Failure(ERROR_GROUP_NAME)
    ensures groupName != "" && selected == [] ==> r == Failure(ERROR_NO_CONTACT)
    ensures r.Success? <==> groupName != "" && selected != []
    ensures r.Success? ==>
              r.value.name == groupName && r.value.image == groupImage
              && r.value.createdBy == uid
              && |r.value.members| == |selected| + 1 && r.value.members[0] == uid
              && r.value.members[1..] == seq(|selected|, i requires 0 <= i < |selected| => selected[i].id)
  {
    if groupName == "" then Failure(ERROR_GROUP_NAME)
    else if |selected| == 0 then Failure(ERROR_NO_CONTACT)
    else Success(GroupData(groupName, groupImage, MemberIds(uid, selected), uid))
  }

  // ---------------------------------------------------------------------------
  // Contact order
  // ---------------------------------------------------------------------------

  /**
   * What `localeCompare` is taken to be: a comparison of names, read as
   * "at most" when it is not positive, that is total and transitive.
   */
  ghost predicate NameOrder(nameCmp: (string, string) -> int)
  {
    && (forall a, b :: nameCmp(a, b) <= 0 || nameCmp(b, a) <= 0)
    && (forall a, b, c :: nameCmp(a, b) <= 0 && nameCmp(b, c) <= 0 ==> nameCmp(a, c) <= 0)
  }

  /** The comparator given to `sort` after loading: app users first, then by name. */
  function CompareContacts(nameCmp: (string, string) -> int, a: Contact, b: Contact): (r: int)
    ensures a.hasApp == b.hasApp ==> r == nameCmp(a.name, b.name)
    ensures a.hasApp != b.hasApp ==> r != 0 && (r < 0 <==> HasApp(a))
  {
    if a.hasApp == b.hasApp then nameCmp(a.name, b.name)
    else if HasApp(a) then -1
    else 1
  }

  predicate Before(nameCmp: (string, string) -> int, a: Contact, b: Contact)
  {
    CompareContacts(nameCmp, a, b) <= 0
  }

  /** Both contacts are tagged, or neither is. */
  predicate SameTagging(a: Contact, b: Contact)
  {
    a.hasApp.None? == b.hasApp.None?
  }

  predicate SortedContacts(nameCmp: (string, string) -> int, cs: seq<Contact>)
  {
    forall i, j :: 0 <= i < j < |cs| ==> Before(nameCmp, cs[i], cs[j])
  }

  lemma BeforeTotal(nameCmp: (string, string) -> int, a: Contact, b: Contact)
    requires NameOrder(nameCmp) && SameTagging(a, b)
    ensures Before(nameCmp, a, b) || Before(nameCmp, b, a)
  {
    if a.hasApp == b.hasApp {
      assert nameCmp(a.name, b.name) <= 0 || nameCmp(b.name, a.name) <= 0;
      assert Before(nameCmp, a, b) || Before(nameCmp, b, a);
    } else {
      if a.hasApp.value {
        assert HasApp(a);
        assert CompareContacts(nameCmp, a, b) == -1;
      } else {
        assert b.hasApp.value;
        assert HasApp(b);
        assert CompareContacts(nameCmp, b, a) == -1;
      }
    }
  }

  lemma BeforeTransitive(nameCmp: (string, string) -> int, a: Contact, b: Contact, c: Contact)
    requires NameOrder(nameCmp) && SameTagging(a, b) && SameTagging(b, c)
    requires Before(nameCmp, a, b) && Before(nameCmp, b, c)
    ensures Before(nameCmp, a, c)
  {
  }

  /** `x` placed before the first contact it may precede. */
  function InsertContact(nameCmp: (string, string) -> int, x: Contact, s: seq<Contact>): (r: seq<Contact>)
    ensures multiset(r) == multiset(s) + multiset{x}
  {
    if s == [] then [x]
    else if Before(nameCmp, x, s[0]) then [x] + s
    else
      assert s == [s[0]] + s[1..];
      [s[0]] + InsertContact(nameCmp, x, s[1..])
  }

  /** A contact that precedes every entry of a sorted list may be put in front of it. */
  lemma SortedCons(nameCmp: (string, string) -> int, y: Contact, t: seq<Contact>)
    requires SortedContacts(nameCmp, t)
    requires forall c | c in t :: Before(nameCmp, y, c)
    ensures SortedContacts(nameCmp, [y] + t)
  {
    var r := [y] + t;
    forall i, j | 0 <= i < j < |r| ensures Before(nameCmp, r[i], r[j]) {
      assert r[j] == t[j - 1] && r[j] in t;
      if i > 0 { assert r[i] == t[i - 1]; }
    }
  }

  /** Inserting a contact tagged like the others into a sorted list keeps it sorted. */
  lemma {:induction false} InsertContactSorted(nameCmp: (string, string) -> int, x: Contact, s: seq<Contact>)
    requires NameOrder(nameCmp)
    requires forall c | c in s :: SameTagging(c, x)
    requires SortedContacts(nameCmp, s)
    ensures SortedContacts(nameCmp, InsertContact(nameCmp, x, s))
  {
    if s == [] {
    } else if Before(nameCmp, x, s[0]) {
      forall c | c in s ensures Before(nameCmp, x, c) {
        var j :| 0 <= j < |s| && s[j] == c;
        if j > 0 {
          assert s[0] in s;
          BeforeTransitive(nameCmp, x, s[0], c);
        }
      }
      SortedCons(nameCmp, x, s);
    } else {
      var rest := s[1..];
      assert forall c | c in rest :: c in s;
      assert SortedContacts(nameCmp, rest) by {
        forall i, j | 0 <= i < j < |rest| ensures Before(nameCmp, rest[i], rest[j]) {
          assert rest[i] == s[i + 1] && rest[j] == s[j + 1];
        }
      }
      InsertContactSorted(nameCmp, x, rest);
      var tail := InsertContact(nameCmp, x, rest);
      assert s[0] in s;
      BeforeTotal(nameCmp, x, s[0]);
      forall c | c in tail ensures Before(nameCmp, s[0], c) {
        assert c in multiset(tail);
        if c != x {
          assert c in multiset(rest);
          var j :| 0 <= j < |rest| && rest[j] == c;
          assert s[j + 1] == c;
        }
      }
      SortedCons(nameCmp, s[0], tail);
    }
  }

  lemma UniformlyTaggedTail(cs: seq<Contact>)
    requires cs != [] && UniformlyTagged(cs)
    ensures UniformlyTagged(cs[1..])
  {
    assert forall c | c in cs[1..] :: c in cs;
  }

  /** Every entry of a permutation of the tail is tagged like the head. */
  lemma SameTaggingAsHead(cs: seq<Contact>, rest: seq<Contact>)
    requires cs != [] && UniformlyTagged(cs) && multiset(rest) == multiset(cs[1..])
    ensures forall c | c in rest :: SameTagging(c, cs[0])
  {
    assert cs[0] in cs;
    forall c | c in rest ensures SameTagging(c, cs[0]) {
      assert c in multiset(cs[1..]);
      assert c in cs[1..];
      assert c in cs;
    }
  }

  /**
   * The contact list as `sort` leaves it under the comparator of
   * loadContacts: a permutation of its input, sorted by that comparator.
   */
  function SortContacts(nameCmp: (string, string) -> int, cs: seq<Contact>): (r: seq<Contact>)
    requires NameOrder(nameCmp) && UniformlyTagged(cs)
    ensures multiset(r) == multiset(cs)
    ensures SortedContacts(nameCmp, r)
  {
    if cs == [] then []
    else
      UniformlyTaggedTail(cs);
      var rest := SortContacts(nameCmp, cs[1..]);
      SameTaggingAsHead(cs, rest);
      InsertContactSorted(nameCmp, cs[0], rest);
      assert cs == [cs[0]] + cs[1..];
      InsertContact(nameCmp, cs[0], rest)
  }

  /**
   * A list sorted under the comparator of loadContacts, tagged uniformly,
   * lists every app user before every other contact and, within each of the
   * two groups, names in order.
   */
  lemma SortedContactsOrder(nameCmp: (string, string) -> int, cs: seq<Contact>)
    requires SortedContacts(nameCmp, cs) && UniformlyTagged(cs)
    ensures forall i, j :: 0 <= i < j < |cs| && HasApp(cs[j]) ==> HasApp(cs[i])
    ensures forall i, j :: 0 <= i < j < |cs| && HasApp(cs[i]) == HasApp(cs[j]) ==>
              nameCmp(cs[i].name, cs[j].name) <= 0
  {
    forall i, j | 0 <= i < j < |cs|
      ensures HasApp(cs[j]) ==> HasApp(cs[i])
      ensures HasApp(cs[i]) == HasApp(cs[j]) ==> nameCmp(cs[i].name, cs[j].name) <= 0
    {
      assert Before(nameCmp, cs[i], cs[j]);
      assert cs[i] in cs && cs[j] in cs;
    }
  }

  /** Sorting keeps a uniformly tagged list uniformly tagged. */
  lemma SortContactsUniformlyTagged(nameCmp: (string, string) -> int, cs: seq<Contact>)
    requires NameOrder(nameCmp) && UniformlyTagged(cs)
    ensures UniformlyTagged(SortContacts(nameCmp, cs))
  {
    var r := SortContacts(nameCmp, cs);
    assert forall c | c in r :: c in cs by {
      forall c | c in r ensures c in cs { assert c in multiset(r); }
    }
  }

  // ---------------------------------------------------------------------------
  // The screen
  // ---------------------------------------------------------------------------

  /** The state of the Create Group screen and its event handlers. */
  class CreateGroupScreen {
    const uid: UserId
    var groupName: string
    var groupImage: string
    var selectedContacts: seq<Contact>
    var allContacts: seq<Contact>
    var error: Option<string>
    var email: string
    var showEmailInput: bool

    /** The screen as it mounts for the signed-in user `uid`. */
    constructor (uid: UserId)
      ensures this.uid == uid
      ensures groupName == "" && groupImage == DEFAULT_GROUP_IMAGE
      ensures selectedContacts == [] && allContacts == []
      ensures error == None && email == "" && !showEmailInput
    {
      this.uid := uid;
      groupName := "";
      groupImage := DEFAULT_GROUP_IMAGE;
      selectedContacts := [];
      allContacts := [];
      error := None;
      email := "";
      showEmailInput := false;
    }

    /** Typing in the group name field. */
    method SetGroupName(name: string)
      modifies this`groupName
      ensures groupName == name
    {
      groupName := name;
    }

    /** Typing in the email field. */
    method SetEmail(value: string)
      modifies this`email
      ensures email == value
    {
      email := value;
    }

    /** The "Add by Email" button shows or hides the email field. */
    method ToggleEmailInput()
      modifies this`showEmailInput
      ensures showEmailInput == !old(showEmailInput)
    {
      showEmailInput := !showEmailInput;
    }

    /**
     * loadContacts: the fetched contacts, sorted with app users first and
     * by name within each group, become the listed contacts. The arguments
     * after `nameCmp` are what fetchContacts is given and finds.
     */
    method LoadContacts(nameCmp: (string, string) -> int, granted: bool, data: seq<DeviceContact>,
                        userDoc: Option<UserDoc>, friendPhoneNumbers: seq<Option<string>>)
      requires NameOrder(nameCmp)
      modifies this`allContacts
      ensures multiset(allContacts) == multiset(FetchContacts(granted, data, userDoc, friendPhoneNumbers))
      ensures forall i, j :: 0 <= i < j < |allContacts| && HasApp(allContacts[j]) ==> HasApp(allContacts[i])
      ensures forall i, j :: 0 <= i < j < |allContacts| && HasApp(allContacts[i]) == HasApp(allContacts[j]) ==>
                nameCmp(allContacts[i].name, allContacts[j].name) <= 0
    {
      var contacts := FetchContacts(granted, data, userDoc, friendPhoneNumbers);
      FetchContactsUniformlyTagged(granted, data, userDoc, friendPhoneNumbers);
      allContacts := SortContacts(nameCmp, contacts);
      SortContactsUniformlyTagged(nameCmp, contacts);
      SortedContactsOrder(nameCmp, allContacts);
    }

    /** toggleContactSelection, applied at once. */
    method ToggleContactSelection(contact: Contact)
      modifies this`selectedContacts
      ensures selectedContacts == Toggle(old(selectedContacts), contact)
      ensures IsSelected(selectedContacts, contact.id) <==> !IsSelected(old(selectedContacts), contact.id)
    {
      selectedContacts := Toggle(selectedContacts, contact);
    }

    /** Pressing a contact in the list: only a contact with the app is toggled. */
    method PressContact(item: Contact)
      modifies this`selectedContacts
      ensures HasApp(item) ==> selectedContacts == Toggle(old(selectedContacts), item)
      ensures !HasApp(item) ==> selectedContacts == old(selectedContacts)
    {
      if HasApp(item) {
        ToggleContactSelection(item);
      }
    }

    /** removeContact: every entry with the id goes, the others keep their order. */
    method RemoveContact(contactId: string)
      modifies this`selectedContacts
      ensures selectedContacts == WithoutId(old(selectedContacts), contactId)
      ensures !IsSelected(selectedContacts, contactId)
      ensures !IsSelected(old(selectedContacts), contactId) ==> selectedContacts == old(selectedContacts)
    {
      selectedContacts := WithoutId(selectedContacts, contactId);
    }

    /**
     * handleAddByEmail: an empty address only sets the error; otherwise an
     * entry for the address is appended (even if that id is already
     * selected), the field is cleared and hidden, and the error is left as it was.
     */
    method HandleAddByEmail()
      modifies this`selectedContacts, this`error, this`email, this`showEmailInput
      ensures old(email) == "" ==>
                error == Some(ERROR_EMAIL) && selectedContacts == old(selectedContacts)
                && email == old(email) && showEmailInput == old(showEmailInput)
      ensures old(email) != "" ==>
                selectedContacts == old(selectedContacts) + [EmailContact(old(email))]
                && email == "" && !showEmailInput && error == old(error)
    {
      if email == "" {
        error := Some(ERROR_EMAIL);
        return;
      }
      selectedContacts := selectedContacts + [EmailContact(email)];
      email := "";
      showEmailInput := false;
    }

    /**
     * handleCreateGroup: on failed validation the error is set and no group
     * is built; otherwise the error is cleared and the group data is returned
     * for `createGroup`. `saved` says whether that write succeeded.
     */
    method HandleCreateGroup(saved: bool) returns (group: Option<GroupData>)
      modifies this`error
      ensures groupName == "" ==> group == None && error == Some(ERROR_GROUP_NAME)
      ensures groupName != "" && selectedContacts == [] ==> group == None && error == Some(ERROR_NO_CONTACT)
      ensures groupName != "" && selectedContacts != [] ==>
                group == Some(GroupData(groupName, groupImage, MemberIds(uid, selectedContacts), uid))
                && error == (if saved then None else Some(ERROR_CREATE_FAILED))
    {
      var v := ValidateGroup(groupName, groupImage, uid, selectedContacts);
      match v
      case Failure(e) =>
        error := Some(e);
        group := None;
      case Success(g) =>
        error := None;
        group := Some(g);
        if !saved {
          error := Some(ERROR_CREATE_FAILED);
        }
    }
  }
}

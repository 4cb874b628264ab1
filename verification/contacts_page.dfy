/** The people directory: a fixed list of users, a search over name and
    username, and the split of the matches into the user's contacts and
    everyone else. */
module ContactsPage {
  import opened Base
  import opened Text
  import Seqs
  import opened Presence

  datatype User = User(
    id: string,
    name: string,
    username: string,
    avatar: Option<string>,
    bio: Option<string>,
    isOnline: bool,
    lastSeen: Option<string>,
    isContact: Option<bool>)

  /** The page's user list. It is held in state without a setter, so no
      handler can change it. */
  const Users: seq<User> :=
    [ User("1", "Alice Johnson", "alice.j", Some(""), Some("UX Designer at TechCorp"), true, None, Some(true)),
      User("2", "Bob Smith", "bobsmith", Some(""), Some("Full-stack developer"), false, Some("2h ago"), Some(true)),
      User("3", "Carol White", "carol_w", Some(""), Some("Product Manager"), true, None, Some(false)),
      User("4", "David Brown", "david.brown", Some(""), Some("Marketing Specialist"), false, Some("1d ago"), Some(false)),
      User("5", "Emma Wilson", "emma_w", Some(""), Some("DevOps Engineer"), true, None, Some(true)) ]

  function UserMatches(term: string): User -> bool {
    (u: User) => Matches(u.name, term) || Matches(u.username, term)
  }

  function IsContactUser(): User -> bool {
    (u: User) => IsSet(u.isContact)
  }

  function IsOtherUser(): User -> bool {
    (u: User) => !IsSet(u.isContact)
  }

  /** `filteredUsers`: the users whose lower-cased name or lower-cased
      username contains the lower-cased term, in list order. */
  function FilterUsers(users: seq<User>, term: string): (r: seq<User>)
    ensures |r| <= |users|
    ensures forall u :: u in r <==> u in users && (Matches(u.name, term) || Matches(u.username, term))
  {
    Seqs.FilterMembers(users, UserMatches(term));
    Seqs.Filter(users, UserMatches(term))
  }

  /** An empty search lists every user, in the original order. */
  lemma EmptySearchListsAll(users: seq<User>)
    ensures FilterUsers(users, "") == users
  {
    forall i | 0 <= i < |users|
      ensures UserMatches("")(users[i])
    {
      ContainsEmpty(Lower(users[i].name));
    }
    Seqs.FilterAll(users, UserMatches(""));
  }

  lemma FilterUsersKeepsOrder(users: seq<User>, term: string)
    ensures Seqs.IsSubsequence(FilterUsers(users, term), users)
  {
    Seqs.FilterIsSubsequence(users, UserMatches(term));
  }

  /** The two sections of the page: "My Contacts" and "Discover People". */
  datatype Sections = Sections(contacts: seq<User>, nonContacts: seq<User>)

  /** `contacts` and `nonContacts`: the matches split by `isContact`. The
      two parts are disjoint and together hold every match exactly as
      often as the match list does; a user whose `isContact` is missing or
      false is not a contact. */
  function Split(users: seq<User>, term: string): (r: Sections)
    ensures multiset(r.contacts) + multiset(r.nonContacts) == multiset(FilterUsers(users, term))
    ensures |r.contacts| + |r.nonContacts| == |FilterUsers(users, term)|
    ensures forall u :: !(u in r.contacts && u in r.nonContacts)
    ensures forall u :: u in r.contacts <==> u in FilterUsers(users, term) && u.isContact == Some(true)
    ensures forall u :: u in r.nonContacts <==> u in FilterUsers(users, term) && u.isContact != Some(true)
  {
    var matches := FilterUsers(users, term);
    Seqs.FilterPartition(matches, IsContactUser(), IsOtherUser());
    Seqs.FilterMembers(matches, IsContactUser());
    Seqs.FilterMembers(matches, IsOtherUser());
    Sections(Seqs.Filter(matches, IsContactUser()), Seqs.Filter(matches, IsOtherUser()))
  }

  /** Each section keeps the order of the match list. */
  lemma SectionsKeepOrder(users: seq<User>, term: string)
    ensures Seqs.IsSubsequence(Split(users, term).contacts, FilterUsers(users, term))
    ensures Seqs.IsSubsequence(Split(users, term).nonContacts, FilterUsers(users, term))
  {
    var matches := FilterUsers(users, term);
    Seqs.FilterIsSubsequence(matches, IsContactUser());
    Seqs.FilterIsSubsequence(matches, IsOtherUser());
  }

  /** The "No users found" line: nothing matches a non-empty term. */
  predicate ShowNoUsersFound(users: seq<User>, term: string) {
    |FilterUsers(users, term)| == 0 && term != ""
  }

  /** The empty-result line never shows without a search, and when it
      shows both sections are empty. */
  lemma NoUsersFoundMeansNothingShown(users: seq<User>, term: string)
    ensures ShowNoUsersFound(users, term) ==> Split(users, term) == Sections([], [])
  {
    if term == "" {
      EmptySearchListsAll(users);
      if users != [] {
        assert users[0] in FilterUsers(users, term);
      }
    }
  }

  /** With no search the page lists three contacts and two other users. */
  lemma DirectorySections()
    ensures |Split(Users, "").contacts| == 3
    ensures |Split(Users, "").nonContacts| == 2
  {
    EmptySearchListsAll(Users);
    SectionCounts(Users);
  }

  lemma SectionCounts(us: seq<User>)
    requires |us| == 5
    requires us[0].isContact == Some(true) && us[1].isContact == Some(true)
    requires us[2].isContact == Some(false) && us[3].isContact == Some(false)
    requires us[4].isContact == Some(true)
    ensures |Seqs.Filter(us, IsContactUser())| == 3
    ensures |Seqs.Filter(us, IsOtherUser())| == 2
  {
    var p, q := IsContactUser(), IsOtherUser();
    assert us[4..][1..] == [];
    assert |Seqs.Filter(us[4..], p)| == 1 && |Seqs.Filter(us[4..], q)| == 0;
    assert us[3..][1..] == us[4..];
    assert us[2..][1..] == us[3..];
    assert |Seqs.Filter(us[2..], p)| == 1 && |Seqs.Filter(us[2..], q)| == 2;
    assert us[1..][1..] == us[2..];
  }

  /** The line under a user's name. */
  function UserStatus(u: User): (r: string)
    ensures r == "Online" <==> u.isOnline
    ensures r == "Offline" <==> !u.isOnline && !IsPresent(u.lastSeen)
    ensures !u.isOnline && IsPresent(u.lastSeen) ==> r == "Last seen " + u.lastSeen.value
  {
    StatusText(u.isOnline, u.lastSeen)
  }
}

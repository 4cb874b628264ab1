/** The conversation list: a case-insensitive search over contact names and
    the per-row display choices (initials, highlight, unread badge). */
module Sidebar {
  import opened Base
  import opened Text
  import Seqs
  import opened MockData
  import opened Initials

  /** The sidebar's search test, as a function value for `filter`. */
  function NameMatches(term: string): Contact -> bool {
    (c: Contact) => Matches(c.name, term)
  }

  /** `filteredContacts`: the contacts whose lower-cased name contains the
      lower-cased search term, in list order. */
  function FilterContacts(cs: seq<Contact>, term: string): (r: seq<Contact>)
    ensures |r| <= |cs|
    ensures forall c :: c in r <==> c in cs && Matches(c.name, term)
  {
    Seqs.FilterMembers(cs, NameMatches(term));
    Seqs.Filter(cs, NameMatches(term))
  }

  /** The result keeps the contacts' original order. */
  lemma FilterContactsKeepsOrder(cs: seq<Contact>, term: string)
    ensures Seqs.IsSubsequence(FilterContacts(cs, term), cs)
  {
    Seqs.FilterIsSubsequence(cs, NameMatches(term));
  }

  /** An empty search shows every contact. */
  lemma EmptySearchShowsAll(cs: seq<Contact>)
    ensures FilterContacts(cs, "") == cs
  {
    forall i | 0 <= i < |cs|
      ensures NameMatches("")(cs[i])
    {
      ContainsEmpty(Lower(cs[i].name));
    }
    Seqs.FilterAll(cs, NameMatches(""));
  }

  /** The search ignores the letter case of the term. */
  lemma SearchIgnoresCase(cs: seq<Contact>, term: string)
    ensures FilterContacts(cs, Upper(term)) == FilterContacts(cs, term)
    ensures FilterContacts(cs, Lower(term)) == FilterContacts(cs, term)
  {
    LowerIgnoresCase(term);
    Seqs.FilterSameTest(cs, NameMatches(Upper(term)), NameMatches(term));
    Seqs.FilterSameTest(cs, NameMatches(Lower(term)), NameMatches(term));
  }

  /** What one row of the list shows. */
  datatype Row = Row(
    contactId: string,
    initials: string,
    highlighted: bool,
    unreadBadge: Option<int>,
    onlineDot: bool,
    groupBadge: bool)

  /** The row drawn for one contact. */
  function RowFor(c: Contact, selectedContactId: Option<string>): (r: Row)
    ensures r.contactId == c.id && r.initials == Upper(WordStarts(c.name, true))
    ensures r.onlineDot == c.isOnline && r.groupBadge == IsSet(c.isGroup)
    ensures r.highlighted <==> selectedContactId == Some(c.id)
    ensures r.unreadBadge.Some? <==> c.unreadCount > 0
    ensures r.unreadBadge.Some? ==> r.unreadBadge.value == c.unreadCount
  {
    Row(c.id, GetInitials(c.name), selectedContactId == Some(c.id),
        if c.unreadCount > 0 then Some(c.unreadCount) else None,
        c.isOnline, IsSet(c.isGroup))
  }

  /** The rendered list: one row per matching contact, in order. A row is
      highlighted exactly when its id is the selected one (never when
      nothing is selected), and it carries an unread badge exactly when
      the unread count is positive. */
  function Rows(cs: seq<Contact>, selectedContactId: Option<string>, term: string): (r: seq<Row>)
    ensures |r| == |FilterContacts(cs, term)|
    ensures forall i :: 0 <= i < |r| ==> r[i] == RowFor(FilterContacts(cs, term)[i], selectedContactId)
    ensures forall i :: 0 <= i < |r| ==>
      var c := FilterContacts(cs, term)[i];
      && r[i].contactId == c.id
      && r[i].initials == Upper(WordStarts(c.name, true))
      && (r[i].highlighted <==> selectedContactId.Some? && selectedContactId.value == c.id)
      && (r[i].unreadBadge.Some? <==> c.unreadCount > 0)
      && (r[i].unreadBadge.Some? ==> r[i].unreadBadge.value == c.unreadCount)
  {
    var shown := FilterContacts(cs, term);
    seq(|shown|, i requires 0 <= i < |shown| => RowFor(shown[i], selectedContactId))
  }

  /** With no selection no row is highlighted, and with a selection at most
      one row is, when contact ids are distinct. */
  lemma AtMostOneHighlighted(cs: seq<Contact>, selectedContactId: Option<string>, term: string)
    requires IdsDistinct(cs)
    ensures selectedContactId.None? ==> forall i :: 0 <= i < |Rows(cs, selectedContactId, term)| ==> !Rows(cs, selectedContactId, term)[i].highlighted
    ensures forall i, j :: 0 <= i < j < |Rows(cs, selectedContactId, term)| ==>
      !(Rows(cs, selectedContactId, term)[i].highlighted && Rows(cs, selectedContactId, term)[j].highlighted)
  {
    var shown := FilterContacts(cs, term);
    Seqs.FilterIsSubsequence(cs, NameMatches(term));
    SubsequenceKeepsDistinct(shown, cs);
  }

  lemma {:induction false} SubsequenceKeepsDistinct(a: seq<Contact>, b: seq<Contact>)
    requires Seqs.IsSubsequence(a, b) && IdsDistinct(b)
    ensures IdsDistinct(a)
    decreases |b|
  {
    if a != [] {
      assert b != [];
      assert IdsDistinct(b[1..]) by {
        forall i, j | 0 <= i < j < |b[1..]|
          ensures b[1..][i].id != b[1..][j].id
        {
          assert b[1..][i] == b[i + 1] && b[1..][j] == b[j + 1];
        }
      }
      if a[0] == b[0] && Seqs.IsSubsequence(a[1..], b[1..]) {
        SubsequenceKeepsDistinct(a[1..], b[1..]);
        forall j | 0 < j < |a|
          ensures a[0].id != a[j].id
        {
          assert a[1..][j - 1] == a[j];
          SubsequenceMember(a[1..], b[1..], j - 1);
          var k :| 0 <= k < |b[1..]| && b[1..][k] == a[j];
          assert b[k + 1] == a[j];
        }
        forall i, j | 0 < i < j < |a|
          ensures a[i].id != a[j].id
        {
          assert a[1..][i - 1] == a[i] && a[1..][j - 1] == a[j];
        }
      } else {
        SubsequenceKeepsDistinct(a, b[1..]);
      }
    }
  }

  lemma {:induction false} SubsequenceMember(a: seq<Contact>, b: seq<Contact>, i: nat)
    requires Seqs.IsSubsequence(a, b) && i < |a|
    ensures exists k :: 0 <= k < |b| && b[k] == a[i]
    decreases |b|
  {
    assert b != [];
    if a[0] == b[0] && Seqs.IsSubsequence(a[1..], b[1..]) {
      if i == 0 {
        assert b[0] == a[i];
      } else {
        SubsequenceMember(a[1..], b[1..], i - 1);
        var k :| 0 <= k < |b[1..]| && b[1..][k] == a[1..][i - 1];
        assert b[k + 1] == a[i];
      }
    } else {
      SubsequenceMember(a, b[1..], i);
      var k :| 0 <= k < |b[1..]| && b[1..][k] == a[i];
      assert b[k + 1] == a[i];
    }
  }
}

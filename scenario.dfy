/**
 * A client of the link store that follows one visitor's path through the
 * service: sign up, shorten a URL, follow the short link once, list links.
 * Everything asserted here follows from the handlers' contracts alone.
 */
module Scenario {
  import opened Types
  import opened Views
  import opened Store
  import ShortCode

  method SignUpShortenVisitList()
  {
    var store := new LinkStore(None, None, 0);
    assert store.users[0].email == "admin@quicklinks.com";
    assert !EmailRegistered(store.users, "a@x.com");

    var signup, session := store.SignUp(Anonymous, "a@x.com", "p", "A", 1000);
    assert signup.Ok? && signup.value.id == 2 && signup.value.plan == "free";
    assert session == Session(2, "a@x.com", UserRole);

    var draws := [0.0, 0.0, 0.0, 0.0, 0.0, 0.0];
    UserIdLookup(store.users, 2);
    assert OwnedBy(store.urls, 2) == [];
    var shortened := store.Shorten(session, "http://example.com", draws, "http://localhost:3000", 2000);
    assert shortened.Ok?;
    var link := shortened.value;
    assert store.urls == [link] && link.longUrl == "http://example.com";
    assert ShortCode.ValidCode(link.shortCode) && |link.shortCode| == 6;

    ShortCode.ReservedCodes("signup");
    assert link.shortCode != "signup" by {
      assert link.shortCode[0] == ShortCode.ALPHABET[ShortCode.Pick(0.0)];
      assert ShortCode.Pick(0.0) == 0;
      assert ShortCode.ALPHABET[0] == ShortCode.LOWER[0] == 'a';
    }
    assert link.shortCode !in RESERVED_NAMES by {
      forall name | name in RESERVED_NAMES && name != "signup" ensures |name| != 6 { }
    }
    var visit := store.Resolve(link.shortCode, "10.0.0.1", "curl", "", 3000);
    assert visit == Redirect(301, "http://example.com");
    assert store.clicks == [Click(1, 1, 3000, "10.0.0.1", "curl", "")];

    var listed := store.ListUrls(session);
    OneVisitListing(link, store.clicks[0]);
    assert listed == Ok([link.(clicks := 1, uniqueVisitors := 1)]);
  }
}

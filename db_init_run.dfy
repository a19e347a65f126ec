/**
 * `init()` as it runs: the awaited statements of db.js issued one by one against the database object,
 * each block proved to leave the database exactly as the pure description in DbInit says.
 */
module DbInitRun {
  import opened SqlStore
  import opened DbInit

  /**
   * The next insert of a list whose earlier inserts all succeeded, starting from `start`; when it is
   * rejected the list ends where the whole list would have ended.
   */
  method InsertNext(db: Database, ghost start: Store, t: string, ghost rows: seq<map<string, Sql>>, ghost n: nat,
                    values: map<string, Sql>) returns (ok: bool)
    requires n < |rows| && rows[n] == values
    requires Attempt(true, db.tables) == InsertAll(Attempt(true, start), t, rows[..n])
    modifies db
    ensures ok ==> (Attempt(true, db.tables) == InsertAll(Attempt(true, start), t, rows[..n + 1]))
    ensures !ok ==> (Attempt(false, db.tables) == InsertAll(Attempt(true, start), t, rows))
  {
    ok := db.Run(Insert(t, values));
    assert rows[..n + 1][..n] == rows[..n];
    if !ok {
      InsertAllPrefixFailure(Attempt(true, start), t, rows, n + 1);
    }
  }

  /** The inserts of a seed list, in order; the first rejected one ends the list. */
  method InsertRows(db: Database, t: string, rows: seq<map<string, Sql>>) returns (ok: bool)
    modifies db
    ensures Attempt(ok, db.tables) == InsertAll(Attempt(true, old(db.tables)), t, rows)
  {
    ghost var start := db.tables;
    ok := true;
    for i := 0 to |rows|
      invariant ok
      invariant Attempt(true, db.tables) == InsertAll(Attempt(true, start), t, rows[..i])
    {
      ok := InsertNext(db, start, t, rows, i, rows[i]);
      if !ok {
        return;
      }
    }
    assert rows[..|rows|] == rows;
  }

  /**
   * One turn of the image loop: image i-1 for listing i and, for the first eight listings, image
   * (i+2) % 11, which are the next rows of `rows`.
   */
  method SeedListingImages(db: Database, ghost start: Store, ghost rows: seq<map<string, Sql>>, ghost done: nat,
                           urls: seq<string>, i: nat) returns (ok: bool)
    requires |urls| == 11 && 1 <= i <= 11
    requires done + (if i <= 8 then 2 else 1) <= |rows|
    requires rows[done] == ImageValues(i, urls[i - 1])
    requires i <= 8 ==> rows[done + 1] == ImageValues(i, urls[(i + 2) % 11])
    requires Attempt(true, db.tables) == InsertAll(Attempt(true, start), "listing_images", rows[..done])
    modifies db
    ensures ok ==> (Attempt(true, db.tables)
          == InsertAll(Attempt(true, start), "listing_images", rows[..done + (if i <= 8 then 2 else 1)]))
    ensures !ok ==> (Attempt(false, db.tables) == InsertAll(Attempt(true, start), "listing_images", rows))
  {
    ok := InsertNext(db, start, "listing_images", rows, done, ImageValues(i, urls[i - 1]));
    if ok && i <= 8 {
      ok := InsertNext(db, start, "listing_images", rows, done + 1, ImageValues(i, urls[(i + 2) % 11]));
    }
  }

  /** The image loop over the eleven listings, writing `rows`. */
  method SeedImages(db: Database, ghost rows: seq<map<string, Sql>>, urls: seq<string>) returns (ok: bool)
    requires |urls| == 11 && ImageLayout(rows, urls)
    modifies db
    ensures Attempt(ok, db.tables) == InsertAll(Attempt(true, old(db.tables)), "listing_images", rows)
  {
    ghost var start := db.tables;
    ok := true;
    for i := 1 to 12
      invariant ok
      invariant Attempt(true, db.tables) == InsertAll(Attempt(true, start), "listing_images", rows[..FirstImageAt(i)])
    {
      ok := SeedListingImages(db, start, rows, FirstImageAt(i), urls, i);
      if !ok {
        return;
      }
    }
    assert rows[..FirstImageAt(12)] == rows;
  }

  /** The CREATE TABLE IF NOT EXISTS statements of a list, in order; they cannot be rejected. */
  method CreateTablesStep(db: Database, tables: seq<(string, seq<Column>)>)
    modifies db
    ensures Attempt(true, db.tables) == CreateTables(Attempt(true, old(db.tables)), tables)
  {
    ghost var start := db.tables;
    for i := 0 to |tables|
      invariant Attempt(true, db.tables) == CreateTables(Attempt(true, start), tables[..i])
    {
      var created := db.Run(CreateTable(tables[i].0, tables[i].1));
      assert tables[..i + 1][..i] == tables[..i];
    }
    assert tables[..|tables|] == tables;
  }

  /** `if (!columnNames.includes(c.name)) await run(ALTER TABLE t ADD COLUMN c)`, unless an earlier ALTER threw. */
  method AddIfMissingStep(db: Database, ok: bool, present: seq<string>, t: string, c: Column) returns (ok': bool)
    modifies db
    ensures Attempt(ok', db.tables) == AddIfMissing(Attempt(ok, old(db.tables)), present, t, c)
  {
    ok' := ok;
    if ok && c.name !in present {
      ok' := db.Run(AddColumn(t, c));
    }
  }

  /** The bookings try block; whatever it throws is caught. */
  method MigrateBookingsBlock(db: Database)
    modifies db
    ensures db.tables == MigrateBookings(old(db.tables))
  {
    ghost var start := db.tables;
    var columnNames := TableInfo(db.tables, "bookings");
    var ok := AddIfMissingStep(db, true, columnNames, "bookings", PaymentStatus);
    ok := AddIfMissingStep(db, ok, columnNames, "bookings", PaymentIntentId);
    ok := AddIfMissingStep(db, ok, columnNames, "bookings", TotalAmount);
    AddAllMissingThree(Attempt(true, start), columnNames, "bookings", PaymentStatus, PaymentIntentId, TotalAmount);
  }

  /** The users try block, with the backfill after a newly added is_active; whatever it throws is caught. */
  method MigrateUsersBlock(db: Database)
    modifies db
    ensures db.tables == MigrateUsers(old(db.tables))
  {
    ghost var start := db.tables;
    var usersColumnNames := TableInfo(db.tables, "users");
    var ok := AddIfMissingStep(db, true, usersColumnNames, "users", LastLogin);
    ok := AddIfMissingStep(db, ok, usersColumnNames, "users", AdminLevel);
    ok := AddIfMissingStep(db, ok, usersColumnNames, "users", CreatedBy);
    AddAllMissingThree(Attempt(true, start), usersColumnNames, "users", LastLogin, AdminLevel, CreatedBy);
    if ok && IsActive.name !in usersColumnNames {
      ok := db.Run(AddColumn("users", IsActive));
      if ok {
        ok := db.Run(SetWhereNull("users", "is_active", SqlInt(1)));
      }
    }
  }

  /** `SELECT COUNT(1)` on `t` and, when it is 0, the seed inserts. */
  method SeedIfEmptyStep(db: Database, t: string, rows: seq<map<string, Sql>>) returns (ok: bool)
    modifies db
    ensures Attempt(ok, db.tables) == SeedIfEmpty(Attempt(true, old(db.tables)), t, rows)
  {
    if t !in db.tables {
      return false;
    }
    if RowCount(db.tables, t) == 0 {
      ok := InsertRows(db, t, rows);
    } else {
      ok := true;
    }
  }

  /** The listing count and, when it is 0, the listings and then the image loop. */
  method SeedListingsStep(db: Database, listings: seq<map<string, Sql>>, urls: seq<string>) returns (ok: bool)
    requires |urls| == 11
    modifies db
    ensures Attempt(ok, db.tables) == SeedListings(Attempt(true, old(db.tables)), listings, ImageRows(ImagePairs(urls, |urls|)))
  {
    if "listings" !in db.tables {
      return false;
    }
    if RowCount(db.tables, "listings") != 0 {
      return true;
    }
    ok := InsertRows(db, "listings", listings);
    InsertAllAfterFailure(Attempt(ok, db.tables), "listing_images", ImageRows(ImagePairs(urls, |urls|)));
    if ok {
      ImageRowsLayout(urls);
      ok := SeedImages(db, ImageRows(ImagePairs(urls, |urls|)), urls);
    }
  }

  /** Look the administrator up; upgrade it, leave it, or insert it with the hashed password. */
  method UpsertStep(db: Database, passwordHash: string, now: string) returns (ok: bool)
    modifies db
    ensures Attempt(ok, db.tables) == UpsertSuperAdmin(Attempt(true, old(db.tables)), passwordHash, now)
  {
    match SelectByEmail(db.tables, "users", AdminEmail)
    case Failed =>
      ok := false;
    case NotFound =>
      ok := db.Run(Insert("users", AdminValues(passwordHash, now)));
    case Found(existingAdmin) =>
      if !IsSuperAdmin(existingAdmin) {
        ok := db.Run(Promote("users", AdminEmail));
      } else {
        ok := true;
      }
  }

  /** The schema part of `init`: the CREATE statements and the two migration blocks between them. */
  method CreateSchema(db: Database)
    modifies db
    ensures Attempt(true, db.tables) == Schema(old(db.tables))
  {
    CreateTablesStep(db, EarlyTables);
    MigrateBookingsBlock(db);
    MigrateUsersBlock(db);
    CreateTablesStep(db, LateTables);
  }

  /**
   * The data part of `init`, run after the schema part resolved: the two seed lists, the listings
   * with their images, and the administrator.
   */
  method SeedAll(db: Database, passwordHash: string, now: string, filters: seq<map<string, Sql>>,
                 categories: seq<map<string, Sql>>, listings: seq<map<string, Sql>>, urls: seq<string>) returns (ok: bool)
    requires |urls| == 11
    modifies db
    ensures Attempt(ok, db.tables)
         == Seeding(Attempt(true, old(db.tables)), passwordHash, now, Seeds(filters, categories, listings, ImageRows(ImagePairs(urls, |urls|))))
  {
    ghost var a3 := Attempt(true, db.tables);
    ok := SeedIfEmptyStep(db, "filter_services", filters);
    ghost var a4 := Attempt(ok, db.tables);
    if ok {
      ok := SeedIfEmptyStep(db, "browse_categories", categories);
    }
    ghost var a5 := Attempt(ok, db.tables);
    if ok {
      ok := SeedListingsStep(db, listings, urls);
    }
    ghost var a6 := Attempt(ok, db.tables);
    if ok {
      ok := UpsertStep(db, passwordHash, now);
    }
    assert a4 == SeedIfEmpty(a3, "filter_services", filters);
    assert a5 == SeedIfEmpty(a4, "browse_categories", categories);
    assert a6 == SeedListings(a5, listings, ImageRows(ImagePairs(urls, |urls|)));
  }

  /** `init` with the given seed rows: the schema part, then the data part. */
  method InitFrom(db: Database, passwordHash: string, now: string, filters: seq<map<string, Sql>>,
                  categories: seq<map<string, Sql>>, listings: seq<map<string, Sql>>, urls: seq<string>) returns (ok: bool)
    requires |urls| == 11
    modifies db
    ensures Attempt(ok, db.tables)
         == InitWith(old(db.tables), passwordHash, now, Seeds(filters, categories, listings, ImageRows(ImagePairs(urls, |urls|))))
    ensures ok && |filters| > 0 && |categories| > 0 && |listings| > 0 ==> Initialized(db.tables)
  {
    ghost var start := db.tables;
    ghost var seeds := Seeds(filters, categories, listings, ImageRows(ImagePairs(urls, |urls|)));
    CreateSchema(db);
    ok := SeedAll(db, passwordHash, now, filters, categories, listings, urls);
    if ok && |filters| > 0 && |categories| > 0 && |listings| > 0 {
      InitEstablishes(start, passwordHash, now, seeds);
    }
  }

  /**
   * `init()`: whether its promise resolves, and the database it leaves, are those of the pure
   * description; so when it resolves the database is initialised.
   */
  method Init(db: Database, passwordHash: string, now: string) returns (ok: bool)
    modifies db
    ensures Attempt(ok, db.tables) == InitState(old(db.tables), passwordHash, now)
    ensures ok ==> Initialized(db.tables)
  {
    ok := InitFrom(db, passwordHash, now, FilterRows(now), CategoryRows(now), ListingRows(now), ImageUrls);
  }
}

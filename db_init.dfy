/**
 * `init()` of the database layer: the schema it creates, the two column migrations, the seed data
 * written into empty tables, and the default super administrator it creates or upgrades.
 */
module DbInit {
  import opened JsValues
  import opened SqlStore
  import Strings

  /** An async body part-way through: whether every awaited statement so far resolved, and the store. */
  datatype Attempt = Attempt(ok: bool, store: Store)

  /** `await run(stmt)`: a rejected statement throws, and nothing after it in the same body runs. */
  function Then(a: Attempt, stmt: Stmt): (r: Attempt)
    ensures !a.ok ==> r == a
    ensures a.ok ==> r.ok == Exec(a.store, stmt).Some? && r.store == Apply(a.store, stmt)
  {
    if !a.ok then a
    else match Exec(a.store, stmt)
      case Some(s) => Attempt(true, s)
      case None => Attempt(false, a.store)
  }

  lemma ThenKeeps(a: Attempt, stmt: Stmt)
    ensures Keeps(a.store, Then(a, stmt).store)
  {
    ExecKeeps(a.store, stmt);
  }

  // ---------------------------------------------------------------------------------------------
  // Schema

  function Col(name: string): Column
  {
    Column(name, SqlNull)
  }

  const ListingsSchema: seq<Column> :=
    [Col("id"), Col("title"), Col("description"), Col("price"), Col("location"), Col("created_at")]

  const PaymentStatus := Column("payment_status", SqlText("unpaid"))
  const PaymentIntentId := Col("payment_intent_id")
  const TotalAmount := Col("total_amount")

  const BookingsSchema: seq<Column> :=
    [Col("id"), Col("listing_id"), Col("name"), Col("email"), Col("checkin"), Col("checkout"),
     Column("status", SqlText("pending")), PaymentStatus, PaymentIntentId, TotalAmount, Col("created_at")]

  const ContactsSchema: seq<Column> :=
    [Col("id"), Col("name"), Col("email"), Col("message"), Col("created_at")]

  const ListingImagesSchema: seq<Column> :=
    [Col("id"), Col("listing_id"), Col("url")]

  const LastLogin := Col("last_login")
  const AdminLevel := Col("admin_level")
  const CreatedBy := Col("created_by")
  const IsActive := Column("is_active", SqlInt(1))

  const UsersSchema: seq<Column> :=
    [Col("id"), Col("name"), Col("email"), Col("password"), Column("role", SqlText("user")),
     AdminLevel, CreatedBy, IsActive, Col("created_at"), LastLogin]

  const ActivityLogsSchema: seq<Column> :=
    [Col("id"), Col("admin_id"), Col("admin_name"), Col("admin_email"), Col("action_type"),
     Col("action_description"), Col("target_type"), Col("target_id"), Col("ip_address"), Col("created_at")]

  const FilterServicesSchema: seq<Column> :=
    [Col("id"), Col("category"), Col("name"), Col("icon"), Col("filter_key"),
     Column("display_order", SqlInt(0)), Column("is_active", SqlInt(1)), Col("created_at")]

  const ListingServicesSchema: seq<Column> :=
    [Col("id"), Col("listing_id"), Col("service_id")]

  const BrowseCategoriesSchema: seq<Column> :=
    [Col("id"), Col("title"), Col("description"), Col("filter_params"), Col("image_url"),
     Column("display_order", SqlInt(0)), Column("is_active", SqlInt(1)), Col("created_at")]

  // ---------------------------------------------------------------------------------------------
  // Column migrations

  /**
   * One `if (!columnNames.includes(name)) await run(ALTER TABLE t ADD COLUMN ...)` step of a try block;
   * `present` is the column list read once at the start of the block.
   */
  function AddIfMissing(a: Attempt, present: seq<string>, t: string, c: Column): Attempt
  {
    if c.name in present then a else Then(a, AddColumn(t, c))
  }

  /** The add-if-missing steps of a try block, one column after another. */
  function AddAllMissing(a: Attempt, present: seq<string>, t: string, columns: seq<Column>): Attempt
    decreases |columns|
  {
    if columns == [] then a
    else AddAllMissing(AddIfMissing(a, present, t, columns[0]), present, t, columns[1..])
  }

  /** A block of three add-if-missing steps, written out. */
  lemma AddAllMissingThree(a: Attempt, present: seq<string>, t: string, c1: Column, c2: Column, c3: Column)
    ensures AddAllMissing(a, present, t, [c1, c2, c3])
         == AddIfMissing(AddIfMissing(AddIfMissing(a, present, t, c1), present, t, c2), present, t, c3)
  {
    var a1 := AddIfMissing(a, present, t, c1);
    var a2 := AddIfMissing(a1, present, t, c2);
    assert [c1, c2, c3][1..] == [c2, c3];
    assert [c2, c3][1..] == [c3];
    assert [c3][1..] == [];
    assert AddAllMissing(a2, present, t, [c3]) == AddIfMissing(a2, present, t, c3);
    assert AddAllMissing(a1, present, t, [c2, c3]) == AddAllMissing(a2, present, t, [c3]);
  }

  const PaymentColumns: seq<Column> := [PaymentStatus, PaymentIntentId, TotalAmount]

  /**
   * The bookings try block: each payment column is added when the table lacks it. A failing ALTER
   * skips the rest of the block; the catch logs it and `init` goes on with the store as it then is.
   */
  function MigrateBookings(s: Store): Store
  {
    AddAllMissing(Attempt(true, s), TableInfo(s, "bookings"), "bookings", PaymentColumns).store
  }

  const UserColumns: seq<Column> := [LastLogin, AdminLevel, CreatedBy]

  /**
   * The users try block: last_login, admin_level, created_by and is_active are added when missing, and
   * only a newly added is_active is followed by the `is_active = 1` backfill. It runs before
   * `CREATE TABLE users`, so on a new database the first ALTER fails and the block is skipped.
   */
  function MigrateUsers(s: Store): Store
  {
    var info := TableInfo(s, "users");
    var a := AddAllMissing(Attempt(true, s), info, "users", UserColumns);
    if IsActive.name in info then a.store
    else Then(Then(a, AddColumn("users", IsActive)), SetWhereNull("users", "is_active", SqlInt(1))).store
  }

  /**
   * One add-if-missing step on an existing table, when the column is either in the snapshot or not in
   * the table at all: it succeeds, and afterwards the column is there, after all the old ones.
   */
  lemma AddIfMissingStep(a: Attempt, present: seq<string>, t: string, c: Column)
    requires a.ok && t in a.store && present <= TableInfo(a.store, t)
    requires c.name in TableInfo(a.store, t) ==> c.name in present
    ensures var r := AddIfMissing(a, present, t, c);
      && r.ok && Extends(a.store, r.store, t)
      && TableInfo(r.store, t) == TableInfo(a.store, t) + (if c.name in present then [] else [c.name])
  {
    ThenKeeps(a, AddColumn(t, c));
    if c.name !in present {
      AddColumnShape(a.store, t, c);
    }
  }

  /**
   * `r` is `s` with columns appended to table `t` only: every table, column and row of `s` is still
   * there, `t` has the same number of rows and every other table is exactly as it was.
   */
  predicate Extends(s: Store, r: Store, t: string)
  {
    && t in r
    && TableInfo(s, t) <= TableInfo(r, t)
    && RowCount(r, t) == RowCount(s, t)
    && Keeps(s, r)
    && forall u | u in s && u != t :: r[u] == s[u]
  }

  lemma ExtendsTrans(s: Store, s': Store, s'': Store, t: string)
    requires Extends(s, s', t) && Extends(s', s'', t)
    ensures Extends(s, s'', t)
  {
    KeepsTrans(s, s', s'');
    assert TableInfo(s, t) <= TableInfo(s', t) <= TableInfo(s'', t);
  }

  predicate DistinctNames(columns: seq<Column>)
  {
    forall i, j | 0 <= i < j < |columns| :: columns[i].name != columns[j].name
  }

  /**
   * The add-if-missing steps on an existing table, when each column is either in the snapshot or not
   * in the table at all: they all succeed and leave every column there, after all the old ones.
   */
  lemma {:induction false} AddAllMissingAdds(a: Attempt, present: seq<string>, t: string, columns: seq<Column>)
    requires a.ok && t in a.store && present <= TableInfo(a.store, t)
    requires forall c | c in columns :: c.name in TableInfo(a.store, t) ==> c.name in present
    requires DistinctNames(columns)
    ensures var r := AddAllMissing(a, present, t, columns);
      && r.ok && Extends(a.store, r.store, t)
      && forall c | c in columns :: c.name in TableInfo(r.store, t)
    decreases |columns|
  {
    if columns != [] {
      var c := columns[0];
      AddIfMissingStep(a, present, t, c);
      var a1 := AddIfMissing(a, present, t, c);
      var rest := columns[1..];
      forall d | d in rest
        ensures d.name in TableInfo(a1.store, t) ==> d.name in present
      {
        var k :| 0 <= k < |rest| && rest[k] == d;
        assert columns[k + 1] == d;
      }
      AddAllMissingAdds(a1, present, t, rest);
      var r := AddAllMissing(a1, present, t, rest);
      ExtendsTrans(a.store, a1.store, r.store, t);
      assert c.name in TableInfo(a1.store, t);
      KeepsColumn(a1.store, r.store, t, c.name);
    }
  }

  lemma {:induction false} AddAllMissingNoop(a: Attempt, present: seq<string>, t: string, columns: seq<Column>)
    requires forall c | c in columns :: c.name in present
    ensures AddAllMissing(a, present, t, columns) == a
    decreases |columns|
  {
    if columns != [] {
      AddAllMissingNoop(a, present, t, columns[1..]);
    }
  }

  /** Once a step of the block has thrown, the remaining steps do nothing. */
  lemma {:induction false} AddAllMissingAfterFailure(a: Attempt, present: seq<string>, t: string, columns: seq<Column>)
    requires !a.ok
    ensures AddAllMissing(a, present, t, columns) == a
    decreases |columns|
  {
    if columns != [] {
      AddAllMissingAfterFailure(a, present, t, columns[1..]);
    }
  }

  /** The add-if-missing steps add no column other than their own. */
  lemma {:induction false} AddAllMissingOthers(a: Attempt, present: seq<string>, t: string, columns: seq<Column>, name: string)
    requires forall c | c in columns :: c.name != name
    ensures name in TableInfo(AddAllMissing(a, present, t, columns).store, t) <==> name in TableInfo(a.store, t)
    decreases |columns|
  {
    if columns != [] {
      var c := columns[0];
      var a1 := AddIfMissing(a, present, t, c);
      if a.ok && c.name !in present && Exec(a.store, AddColumn(t, c)).Some? {
        AddColumnShape(a.store, t, c);
      }
      assert name in TableInfo(a1.store, t) <==> name in TableInfo(a.store, t);
      AddAllMissingOthers(a1, present, t, columns[1..], name);
    }
  }

  /** The IS NULL backfill of an existing column succeeds and adds no column and no row. */
  lemma BackfillStep(a: Attempt, t: string, c: string, v: Sql)
    requires a.ok && t in a.store && c in TableInfo(a.store, t)
    ensures var r := Then(a, SetWhereNull(t, c, v));
      && r.ok && Extends(a.store, r.store, t) && TableInfo(r.store, t) == TableInfo(a.store, t)
  {
    ThenKeeps(a, SetWhereNull(t, c, v));
    ExecFrame(a.store, SetWhereNull(t, c, v));
  }

  /** Adding is_active to an existing users table without it, then the backfill: both succeed, and every user is active. */
  lemma AddIsActive(a: Attempt)
    requires a.ok && "users" in a.store && IsActive.name !in TableInfo(a.store, "users")
    ensures var r := Then(Then(a, AddColumn("users", IsActive)), SetWhereNull("users", "is_active", SqlInt(1)));
      && r.ok && Extends(a.store, r.store, "users")
      && TableInfo(r.store, "users") == TableInfo(a.store, "users") + [IsActive.name]
      && forall i | 0 <= i < |r.store["users"].rows| ::
           "is_active" in r.store["users"].rows[i] && r.store["users"].rows[i]["is_active"] == SqlInt(1)
  {
    AddThenBackfill(a, "users", IsActive);
    var b := Then(a, AddColumn("users", IsActive));
    assert b.ok && Extends(a.store, b.store, "users") && TableInfo(b.store, "users") == TableInfo(a.store, "users") + [IsActive.name] by {
      assert b == AddIfMissing(a, [], "users", IsActive);
      AddIfMissingStep(a, [], "users", IsActive);
    }
    var r := Then(b, SetWhereNull("users", "is_active", SqlInt(1)));
    assert r.ok && Extends(b.store, r.store, "users") && TableInfo(r.store, "users") == TableInfo(b.store, "users") by {
      assert IsActive.name in TableInfo(b.store, "users");
      BackfillStep(b, "users", "is_active", SqlInt(1));
    }
    ExtendsTrans(a.store, b.store, r.store, "users");
  }

  /** After the bookings block an existing bookings table has all three payment columns, its old columns first. */
  lemma MigrateBookingsAdds(s: Store)
    requires "bookings" in s
    ensures var r := MigrateBookings(s);
      && Extends(s, r, "bookings")
      && forall c | c in PaymentColumns :: c.name in TableInfo(r, "bookings")
  {
    AddAllMissingAdds(Attempt(true, s), TableInfo(s, "bookings"), "bookings", PaymentColumns);
  }

  /** The bookings block leaves a table that already has all three payment columns untouched. */
  lemma MigrateBookingsNoop(s: Store)
    requires forall c | c in PaymentColumns :: c.name in TableInfo(s, "bookings")
    ensures MigrateBookings(s) == s
  {
    AddAllMissingNoop(Attempt(true, s), TableInfo(s, "bookings"), "bookings", PaymentColumns);
  }

  /** A missing users table makes the first ALTER fail; the catch leaves the store as it was. */
  lemma MigrateUsersMissing(s: Store)
    requires "users" !in s
    ensures MigrateUsers(s) == s
  {
    var a1 := AddIfMissing(Attempt(true, s), [], "users", LastLogin);
    assert !a1.ok && a1.store == s;
    AddAllMissingAfterFailure(a1, [], "users", UserColumns[1..]);
  }

  /** The three add-if-missing steps of the users block on an existing users table. */
  lemma UsersBlockSteps(s: Store)
    requires "users" in s
    ensures var a := AddAllMissing(Attempt(true, s), TableInfo(s, "users"), "users", UserColumns);
      && a.ok && Extends(s, a.store, "users")
      && (forall c | c in UserColumns :: c.name in TableInfo(a.store, "users"))
      && (IsActive.name in TableInfo(a.store, "users") <==> IsActive.name in TableInfo(s, "users"))
  {
    var info := TableInfo(s, "users");
    var a := AddAllMissing(Attempt(true, s), info, "users", UserColumns);
    assert a.ok && Extends(s, a.store, "users") && (forall c | c in UserColumns :: c.name in TableInfo(a.store, "users")) by {
      UserColumnNames();
      AddAllMissingAdds(Attempt(true, s), info, "users", UserColumns);
    }
    assert IsActive.name in TableInfo(a.store, "users") <==> IsActive.name in TableInfo(s, "users") by {
      UserColumnNames();
      AddAllMissingOthers(Attempt(true, s), info, "users", UserColumns, IsActive.name);
    }
  }

  /** The three user columns have distinct names, none of them is_active. */
  lemma UserColumnNames()
    ensures DistinctNames(UserColumns)
    ensures forall c | c in UserColumns :: c.name != IsActive.name
  {
  }

  /** After the users block an existing users table has all four columns, its old columns first. */
  lemma MigrateUsersAdds(s: Store)
    requires "users" in s
    ensures var r := MigrateUsers(s);
      && Extends(s, r, "users")
      && (forall c | c in UserColumns :: c.name in TableInfo(r, "users"))
      && IsActive.name in TableInfo(r, "users")
  {
    var a := AddAllMissing(Attempt(true, s), TableInfo(s, "users"), "users", UserColumns);
    UsersBlockSteps(s);
    if IsActive.name !in TableInfo(s, "users") {
      var r := MigrateUsers(s);
      assert Extends(a.store, r, "users") && TableInfo(r, "users") == TableInfo(a.store, "users") + [IsActive.name] by {
        AddIsActive(a);
      }
      ExtendsTrans(s, a.store, r, "users");
      forall col | col in UserColumns
        ensures col.name in TableInfo(r, "users")
      {
        KeepsColumn(a.store, r, "users", col.name);
      }
    }
  }

  /** The backfill after ADD COLUMN ... DEFAULT v (v not NULL) finds no NULL to replace. */
  lemma BackfillFindsNothing(rows: seq<Row>, column: string, v: Sql)
    requires v != SqlNull
    ensures SetNulls(FillColumn(rows, column, v), column, v) == FillColumn(rows, column, v)
  {
  }

  /** ADD COLUMN with a non-NULL default followed by the IS NULL backfill: every row holds the default. */
  lemma AddThenBackfill(a: Attempt, t: string, c: Column)
    requires a.ok && t in a.store && c.name !in TableInfo(a.store, t) && c.default != SqlNull
    ensures var r := Then(Then(a, AddColumn(t, c)), SetWhereNull(t, c.name, c.default));
      && t in r.store
      && r.store[t].rows == FillColumn(a.store[t].rows, c.name, c.default)
  {
    var b := Then(a, AddColumn(t, c));
    AddColumnShape(a.store, t, c);
    assert b.ok && b.store[t].rows == FillColumn(a.store[t].rows, c.name, c.default);
    BackfillFindsNothing(a.store[t].rows, c.name, c.default);
  }

  /** When the users block adds is_active, every user ends up active. */
  lemma MigrateUsersActivates(s: Store)
    requires "users" in s && IsActive.name !in TableInfo(s, "users")
    ensures var r := MigrateUsers(s);
      && "users" in r
      && forall i | 0 <= i < |r["users"].rows| :: "is_active" in r["users"].rows[i] && r["users"].rows[i]["is_active"] == SqlInt(1)
  {
    var a := AddAllMissing(Attempt(true, s), TableInfo(s, "users"), "users", UserColumns);
    UsersBlockSteps(s);
    AddThenBackfill(a, "users", IsActive);
  }

  /** The add-if-missing steps leave every row's value in any other column as it was. */
  lemma {:induction false} AddAllMissingKeepsField(a: Attempt, present: seq<string>, t: string, columns: seq<Column>, k: string)
    requires t in a.store
    requires forall c | c in columns :: c.name != k
    ensures var r := AddAllMissing(a, present, t, columns);
      && t in r.store && |r.store[t].rows| == |a.store[t].rows|
      && forall i | 0 <= i < |a.store[t].rows| ::
           (k in r.store[t].rows[i] <==> k in a.store[t].rows[i])
           && (k in a.store[t].rows[i] ==> r.store[t].rows[i][k] == a.store[t].rows[i][k])
    decreases |columns|
  {
    if columns != [] {
      var a1 := AddIfMissing(a, present, t, columns[0]);
      assert columns[0] in columns;
      AddAllMissingKeepsField(a1, present, t, columns[1..], k);
    }
  }

  /** When is_active already exists, the users block changes no user's is_active value. */
  lemma MigrateUsersKeepsActive(s: Store)
    requires "users" in s && IsActive.name in TableInfo(s, "users")
    ensures var r := MigrateUsers(s);
      && "users" in r
      && |r["users"].rows| == |s["users"].rows|
      && forall i | 0 <= i < |s["users"].rows| ::
           ("is_active" in r["users"].rows[i] <==> "is_active" in s["users"].rows[i])
           && ("is_active" in s["users"].rows[i] ==> r["users"].rows[i]["is_active"] == s["users"].rows[i]["is_active"])
  {
    AddAllMissingKeepsField(Attempt(true, s), TableInfo(s, "users"), "users", UserColumns, "is_active");
  }

  // ---------------------------------------------------------------------------------------------
  // Seed data

  /** One `INSERT INTO filter_services (category,name,icon,filter_key,display_order,created_at)`. */
  datatype FilterSeed = FilterSeed(category: string, name: string, icon: string, key: string, order: int)

  const FilterSeeds: seq<FilterSeed> := [
    FilterSeed("Services", "Pool", "water", "pool", 1),
    FilterSeed("Services", "WiFi", "wifi", "wifi", 2),
    FilterSeed("Services", "Balcony", "building", "balcony", 3),
    FilterSeed("Services", "Air Conditioning", "snow", "air-conditioning", 4),
    FilterSeed("Services", "Garden", "flower1", "garden", 5),
    FilterSeed("Services", "TV", "tv", "tv", 6),
    FilterSeed("Services", "Parking", "car-front", "parking", 7),
    FilterSeed("Services", "Kitchen", "cup-hot", "kitchen", 8),
    FilterSeed("Services", "Washing Machine", "recycle", "washing", 9),
    FilterSeed("Services", "Microwave", "lightning", "microwave", 10),
    FilterSeed("Services", "Dishwasher", "droplet", "dishwasher", 11),
    FilterSeed("Services", "Hot Tub", "tsunami", "hot-tub", 12),
    FilterSeed("Services", "Sauna", "fire", "sauna", 13),
    FilterSeed("Services", "Fireplace", "fire", "fireplace", 14),
    FilterSeed("Services", "Cot", "moon", "cot", 15),
    FilterSeed("Accommodation Type", "Pet-Friendly", "heart", "pet-friendly", 1),
    FilterSeed("Accommodation Type", "No Smoking", "slash-circle", "no-smoking", 2),
    FilterSeed("Accommodation Type", "No Pets", "x-circle", "no-pets", 3),
    FilterSeed("Accommodation Type", "Wheelchair Access", "person-wheelchair", "wheelchair", 4),
    FilterSeed("Activities", "Fishing", "life-preserver", "fishing", 1),
    FilterSeed("Activities", "Grill", "fire", "grill", 2)
  ]

  function FilterValues(f: FilterSeed, now: string): map<string, Sql>
  {
    map["category" := SqlText(f.category), "name" := SqlText(f.name), "icon" := SqlText(f.icon),
        "filter_key" := SqlText(f.key), "display_order" := SqlInt(f.order), "created_at" := SqlText(now)]
  }

  /** The 21 filter-service inserts, in source order; `now` stands for each `new Date().toISOString()`. */
  function FilterRows(now: string): (r: seq<map<string, Sql>>)
    ensures |r| == 21
  {
    seq(|FilterSeeds|, i requires 0 <= i < |FilterSeeds| => FilterValues(FilterSeeds[i], now))
  }

  /** One `INSERT INTO browse_categories (...)`; is_active is given as 1 explicitly. */
  datatype CategorySeed = CategorySeed(title: string, description: string, filterParams: string, imageUrl: string, order: int)

  const CategorySeeds: seq<CategorySeed> := [
    CategorySeed("Entire Homes", "Spacious homes perfect for families and groups", "category=home", "/images/entire-homes.jpg", 1),
    CategorySeed("City Stays", "Modern apartments in the heart of the city", "location=city", "/images/city-stays.jpg", 2),
    CategorySeed("Beach Houses", "Coastal cottages with stunning ocean views", "location=seaside", "/images/beach-houses.jpg", 3),
    CategorySeed("Mountain Retreats", "Cozy cabins in scenic mountain locations", "location=highlands", "/images/mountain-retreats.jpg", 4)
  ]

  function CategoryValues(c: CategorySeed, now: string): map<string, Sql>
  {
    map["title" := SqlText(c.title), "description" := SqlText(c.description), "filter_params" := SqlText(c.filterParams),
        "image_url" := SqlText(c.imageUrl), "display_order" := SqlInt(c.order), "is_active" := SqlInt(1),
        "created_at" := SqlText(now)]
  }

  function CategoryRows(now: string): (r: seq<map<string, Sql>>)
    ensures |r| == 4
  {
    seq(|CategorySeeds|, i requires 0 <= i < |CategorySeeds| => CategoryValues(CategorySeeds[i], now))
  }

  /**
   * One `INSERT INTO listings (title,description,price,location,created_at)`. The description is kept
   * as its words; the stored text is those words joined by single spaces.
   */
  datatype ListingSeed = ListingSeed(title: string, words: seq<string>, price: real, location: string)

  const ListingSeeds: seq<ListingSeed> := [
    ListingSeed("Spacious Family Home",
      ["Beautiful", "4-bedroom", "home", "perfect", "for", "families.", "Features", "include", "WiFi,",
       "full", "kitchen", "with", "dishwasher", "and", "microwave,", "washing", "machine,", "TV,", "air",
       "conditioning,", "private", "garden", "with", "BBQ", "grill,", "parking,", "and", "pet-friendly.",
       "Private", "yard", "with", "room", "for", "everyone."],
      180.0, "Suburbs"),
    ListingSeed("Modern Villa with Pool",
      ["Luxury", "5-bedroom", "home", "with", "private", "heated", "pool,", "hot", "tub,", "WiFi,", "full",
       "kitchen,", "TV", "in", "every", "room,", "air", "conditioning,", "balcony", "with", "terrace,",
       "garden,", "parking,", "sauna,", "fireplace,", "washing", "machine,", "dishwasher,", "microwave.",
       "Ideal", "for", "large", "groups."],
      350.0, "Countryside"),
    ListingSeed("Downtown Apartment",
      ["Cozy", "2-bedroom", "apartment", "in", "the", "heart", "of", "the", "city.", "Includes", "WiFi,",
       "TV,", "air", "conditioning,", "full", "kitchen", "with", "microwave,", "dishwasher,", "washing",
       "machine,", "balcony.", "Walking", "distance", "to", "restaurants", "and", "attractions.", "No",
       "smoking."],
      85.0, "City Center"),
    ListingSeed("Luxury City Loft",
      ["Modern", "loft", "apartment", "with", "skyline", "views,", "WiFi,", "smart", "TV,", "air",
       "conditioning,", "full", "kitchen", "with", "dishwasher", "and", "microwave,", "washing", "machine,",
       "rooftop", "terrace,", "parking,", "gym", "access,", "concierge", "service.", "No", "smoking,", "no",
       "pets."],
      150.0, "City Downtown"),
    ListingSeed("Studio in Arts District",
      ["Charming", "studio", "apartment", "near", "galleries", "and", "theaters.", "Features", "WiFi,",
       "TV,", "air", "conditioning,", "kitchenette", "with", "microwave,", "balcony.", "Perfect", "for",
       "solo", "travelers", "and", "couples.", "No", "smoking."],
      65.0, "City Center"),
    ListingSeed("Beachfront Cottage",
      ["Beautiful", "cottage", "with", "direct", "beach", "access", "and", "stunning", "ocean", "views.",
       "Includes", "WiFi,", "TV,", "air", "conditioning,", "full", "kitchen", "with", "dishwasher", "and",
       "microwave,", "washing", "machine,", "patio", "with", "BBQ", "grill,", "parking,", "garden,",
       "pet-friendly.", "Perfect", "for", "beach", "lovers."],
      220.0, "Seaside"),
    ListingSeed("Coastal Retreat",
      ["Charming", "seaside", "cottage", "steps", "from", "the", "water.", "Features", "WiFi,", "TV,",
       "full", "kitchen,", "washing", "machine,", "terrace,", "parking,", "garden.", "Enjoy", "sunsets,",
       "beach", "walks,", "and", "fishing", "nearby.", "Pet-friendly."],
      175.0, "Seaside Beach"),
    ListingSeed("Luxury Beach House",
      ["Stunning", "3-bedroom", "beach", "house", "with", "panoramic", "ocean", "views,", "WiFi,", "smart",
       "TV,", "air", "conditioning,", "full", "kitchen", "with", "dishwasher", "and", "microwave,",
       "washing", "machine,", "large", "deck", "with", "hot", "tub,", "BBQ", "grill,", "parking,",
       "premium", "furnishings.", "No", "smoking."],
      280.0, "Seaside Premium"),
    ListingSeed("Rustic Mountain Cabin",
      ["Cozy", "wooden", "cabin", "surrounded", "by", "nature.", "Includes", "WiFi,", "TV,", "fireplace,",
       "full", "kitchen", "with", "microwave,", "parking,", "patio", "with", "BBQ", "grill.", "Near",
       "hiking", "trails", "and", "fishing", "spots,", "perfect", "for", "nature", "lovers.",
       "Pet-friendly."],
      95.0, "Highlands"),
    ListingSeed("Alpine Lodge Cabin",
      ["Spacious", "cabin", "with", "fireplace,", "mountain", "views,", "WiFi,", "TV,", "air",
       "conditioning,", "full", "kitchen", "with", "dishwasher", "and", "microwave,", "washing", "machine,",
       "hot", "tub,", "sauna,", "balcony,", "parking.", "Ideal", "for", "winter", "sports", "enthusiasts",
       "and", "hikers.", "Wheelchair", "accessible."],
      140.0, "Highlands Mountain"),
    ListingSeed("Secluded Forest Retreat",
      ["Private", "cabin", "deep", "in", "the", "woods", "with", "WiFi,", "TV,", "fireplace,", "full",
       "kitchen,", "washing", "machine,", "terrace,", "parking,", "garden.", "Perfect", "for", "peace",
       "and", "quiet.", "Near", "fishing", "and", "hiking", "trails.", "Pet-friendly,", "smoke-free."],
      110.0, "Highlands Forest")
  ]

  function ListingValues(l: ListingSeed, now: string): map<string, Sql>
  {
    map["title" := SqlText(l.title), "description" := SqlText(Strings.Join(l.words, " ")), "price" := SqlReal(l.price),
        "location" := SqlText(l.location), "created_at" := SqlText(now)]
  }

  function ListingRows(now: string): (r: seq<map<string, Sql>>)
    ensures |r| == 11
  {
    seq(|ListingSeeds|, i requires 0 <= i < |ListingSeeds| => ListingValues(ListingSeeds[i], now))
  }

  /** An image address: the photo id between the common host path and the common query string. */
  function Photo(id: string): string
  {
    "https://images.unsplash.com/photo-" + id + "?w=1200&q=80&auto=format&fit=crop"
  }

  /** The eleven listing photos, the i-th belonging to the i-th seeded listing. */
  const ImageUrls: seq<string> := [
    Photo("1600596542815-ffad4c1539a9"), Photo("1613490493576-7fde63acd811"), Photo("1522708323590-d24dbb6b0267"),
    Photo("1560448204-e02f11c3d0e2"), Photo("1502672260266-1c1ef2d93688"), Photo("1499793983690-e29da59ef1c2"),
    Photo("1505693416388-ac5ce068fe85"), Photo("1512917774080-9991f1c4c750"), Photo("1542718610-a1d656d1884c"),
    Photo("1518780664697-55e3ad937233"), Photo("1587061949409-02df41d5e562")
  ]

  /**
   * The (listing_id, url) pairs the image loop inserts for listings 1..k: listing i gets image i-1 and,
   * when i <= 8, also image (i+2) % 11.
   */
  function ImagePairs(urls: seq<string>, k: nat): (r: seq<(int, string)>)
    requires |urls| == 11 && k <= 11
  {
    if k == 0 then []
    else ImagePairs(urls, k - 1) + [(k, urls[k - 1])] + (if k <= 8 then [(k, urls[(k + 2) % 11])] else [])
  }

  function ImageValues(listingId: int, url: string): map<string, Sql>
  {
    map["listing_id" := SqlInt(listingId), "url" := SqlText(url)]
  }

  function ImageRows(pairs: seq<(int, string)>): (r: seq<map<string, Sql>>)
    ensures |r| == |pairs|
  {
    seq(|pairs|, i requires 0 <= i < |pairs| => ImageValues(pairs[i].0, pairs[i].1))
  }

  /** Where listing i's first image row sits among the rows the loop writes. */
  function FirstImageAt(i: nat): nat
  {
    if i == 0 then 0 else (i - 1) + (if i - 1 <= 8 then i - 1 else 8)
  }

  /**
   * The first k listings get k + min(k, 8) image rows, in listing order: for listing i, image i-1 and
   * then, for the first eight, image (i+2) % 11.
   */
  lemma {:induction false} ImagePairsShape(urls: seq<string>, k: nat)
    requires |urls| == 11 && k <= 11
    ensures |ImagePairs(urls, k)| == k + (if k <= 8 then k else 8)
    ensures forall i | 1 <= i <= k ::
      FirstImageAt(i) < |ImagePairs(urls, k)| && ImagePairs(urls, k)[FirstImageAt(i)] == (i, urls[i - 1])
    ensures forall i | 1 <= i <= k && i <= 8 ::
      FirstImageAt(i) + 1 < |ImagePairs(urls, k)| && ImagePairs(urls, k)[FirstImageAt(i) + 1] == (i, urls[(i + 2) % 11])
  {
    if k > 0 {
      ImagePairsShape(urls, k - 1);
      var prev := ImagePairs(urls, k - 1);
      assert ImagePairs(urls, k)[..|prev|] == prev;
    }
  }

  /** Every image row the first k listings get belongs to one of them. */
  lemma {:induction false} ImagePairsListings(urls: seq<string>, k: nat)
    requires |urls| == 11 && k <= 11
    ensures forall p | p in ImagePairs(urls, k) :: 1 <= p.0 <= k
  {
    if k > 0 {
      ImagePairsListings(urls, k - 1);
    }
  }

  /** Where the image loop's rows for listing i sit among all 19 of them, and what they hold. */
  predicate ImageLayout(rows: seq<map<string, Sql>>, urls: seq<string>)
    requires |urls| == 11
  {
    && |rows| == 19
    && forall i | 1 <= i <= 11 ::
      && rows[FirstImageAt(i)] == ImageValues(i, urls[i - 1])
      && (i <= 8 ==> rows[FirstImageAt(i) + 1] == ImageValues(i, urls[(i + 2) % 11]))
  }

  /** The rows of the image loop are laid out listing by listing. */
  lemma ImageRowsLayout(urls: seq<string>)
    requires |urls| == 11
    ensures ImageLayout(ImageRows(ImagePairs(urls, |urls|)), urls)
  {
    ImagePairsShape(urls, 11);
  }

  /** The image loop over all eleven listings writes 19 rows. */
  lemma SeededImageCount(urls: seq<string>)
    requires |urls| == 11
    ensures |ImagePairs(urls, |urls|)| == 19
  {
    ImagePairsShape(urls, 11);
  }

  // ---------------------------------------------------------------------------------------------
  // Seeding

  /** Awaited inserts into `t`, one after another; the first rejected one throws. */
  function InsertAll(a: Attempt, t: string, rows: seq<map<string, Sql>>): Attempt
    decreases |rows|
  {
    if rows == [] then a else Then(InsertAll(a, t, rows[..|rows| - 1]), Insert(t, rows[|rows| - 1]))
  }

  /** The rows an INSERT of each value map stores in a table with these columns. */
  function RowsOf(columns: seq<Column>, rows: seq<map<string, Sql>>): (r: seq<Row>)
    ensures |r| == |rows|
    decreases |rows|
  {
    if rows == [] then [] else RowsOf(columns, rows[..|rows| - 1]) + [RowOf(columns, rows[|rows| - 1])]
  }

  /** The i-th stored row is the i-th value map completed with the column defaults. */
  lemma {:induction false} RowsOfAt(columns: seq<Column>, rows: seq<map<string, Sql>>, i: nat)
    requires i < |rows|
    ensures RowsOf(columns, rows)[i] == RowOf(columns, rows[i])
    decreases |rows|
  {
    if i < |rows| - 1 {
      RowsOfAt(columns, rows[..|rows| - 1], i);
    }
  }

  /** Once an insert has thrown, the later ones never run. */
  lemma {:induction false} InsertAllAfterFailure(a: Attempt, t: string, rows: seq<map<string, Sql>>)
    ensures !a.ok ==> InsertAll(a, t, rows) == a
    decreases |rows|
  {
    if rows != [] {
      InsertAllAfterFailure(a, t, rows[..|rows| - 1]);
    }
  }

  lemma {:induction false} InsertAllAppend(a: Attempt, t: string, x: seq<map<string, Sql>>, y: seq<map<string, Sql>>)
    ensures InsertAll(a, t, x + y) == InsertAll(InsertAll(a, t, x), t, y)
    decreases |y|
  {
    if y == [] {
      assert x + y == x;
    } else {
      assert (x + y)[..|x + y| - 1] == x + y[..|y| - 1];
      InsertAllAppend(a, t, x, y[..|y| - 1]);
    }
  }

  /** When an insert of the first n rows throws, the remaining inserts never run. */
  lemma InsertAllPrefixFailure(a: Attempt, t: string, rows: seq<map<string, Sql>>, n: nat)
    requires n <= |rows| && !InsertAll(a, t, rows[..n]).ok
    ensures InsertAll(a, t, rows) == InsertAll(a, t, rows[..n])
  {
    assert rows == rows[..n] + rows[n..];
    InsertAllAppend(a, t, rows[..n], rows[n..]);
    InsertAllAfterFailure(InsertAll(a, t, rows[..n]), t, rows[n..]);
  }

  /** Inserts that all succeed never drop a table, a column or a row. */
  lemma {:induction false} InsertAllKeeps(a: Attempt, t: string, rows: seq<map<string, Sql>>)
    ensures Keeps(a.store, InsertAll(a, t, rows).store)
    decreases |rows|
  {
    if rows != [] {
      var b := InsertAll(a, t, rows[..|rows| - 1]);
      InsertAllKeeps(a, t, rows[..|rows| - 1]);
      ThenKeeps(b, Insert(t, rows[|rows| - 1]));
      KeepsTrans(a.store, b.store, InsertAll(a, t, rows).store);
    }
  }

  /** Inserts that all succeed change no table but `t`, and no column of `t`. */
  lemma {:induction false} InsertAllFrame(a: Attempt, t: string, rows: seq<map<string, Sql>>)
    requires a.ok && t in a.store && InsertAll(a, t, rows).ok
    ensures var r := InsertAll(a, t, rows).store;
      && r.Keys == a.store.Keys
      && r[t].columns == a.store[t].columns
      && forall u | u in a.store && u != t :: r[u] == a.store[u]
    decreases |rows|
  {
    if rows != [] {
      var b := InsertAll(a, t, rows[..|rows| - 1]);
      assert b.ok;
      InsertAllFrame(a, t, rows[..|rows| - 1]);
      ExecFrame(b.store, Insert(t, rows[|rows| - 1]));
    }
  }

  /** Inserts that all succeed append, in order, one row per value map, completed with the column defaults. */
  lemma {:induction false} InsertAllRows(a: Attempt, t: string, rows: seq<map<string, Sql>>)
    requires a.ok && t in a.store && InsertAll(a, t, rows).ok
    ensures var r := InsertAll(a, t, rows).store;
      && t in r
      && r[t].rows == a.store[t].rows + RowsOf(a.store[t].columns, rows)
    decreases |rows|
  {
    InsertAllFrame(a, t, rows);
    if rows == [] {
      assert a.store[t].rows + RowsOf(a.store[t].columns, rows) == a.store[t].rows;
    } else {
      var init := rows[..|rows| - 1];
      var last := rows[|rows| - 1];
      var b := InsertAll(a, t, init);
      assert b.ok;
      InsertAllRows(a, t, init);
      InsertAllFrame(a, t, init);
      var cols := a.store[t].columns;
      assert InsertAll(a, t, rows).store[t].rows == b.store[t].rows + [RowOf(cols, last)];
    }
  }

  /** `SELECT COUNT(1)` and, when it is 0, the inserts; the count on a missing table throws. */
  function SeedIfEmpty(a: Attempt, t: string, rows: seq<map<string, Sql>>): Attempt
  {
    if !a.ok then a
    else if t !in a.store then Attempt(false, a.store)
    else if RowCount(a.store, t) == 0 then InsertAll(a, t, rows)
    else a
  }

  /** A table that already has rows is not seeded. */
  lemma SeedSkipsNonEmpty(a: Attempt, t: string, rows: seq<map<string, Sql>>)
    requires a.ok && RowCount(a.store, t) > 0
    ensures SeedIfEmpty(a, t, rows) == a
  {
  }

  /** An empty table that is seeded ends up holding exactly the seed rows, in order. */
  lemma SeedFillsEmpty(a: Attempt, t: string, rows: seq<map<string, Sql>>)
    requires a.ok && t in a.store && RowCount(a.store, t) == 0 && SeedIfEmpty(a, t, rows).ok
    ensures var r := SeedIfEmpty(a, t, rows).store;
      && r.Keys == a.store.Keys
      && r[t].rows == RowsOf(a.store[t].columns, rows)
      && RowCount(r, t) == |rows|
      && forall u | u in a.store && u != t :: r[u] == a.store[u]
  {
    InsertAllFrame(a, t, rows);
    InsertAllRows(a, t, rows);
  }

  /**
   * The listing seed: when the listings table is empty, the eleven listings and then the image rows;
   * the count on a missing table throws.
   */
  function SeedListings(a: Attempt, listings: seq<map<string, Sql>>, images: seq<map<string, Sql>>): Attempt
  {
    if !a.ok then a
    else if "listings" !in a.store then Attempt(false, a.store)
    else if RowCount(a.store, "listings") == 0 then InsertAll(InsertAll(a, "listings", listings), "listing_images", images)
    else a
  }

  // ---------------------------------------------------------------------------------------------
  // Default super administrator

  const AdminEmail := "sysadmin.portal@helnay.com"

  predicate IsSuperAdmin(row: Row)
  {
    "admin_level" in row && row["admin_level"] == SqlText("super_admin")
  }

  /** The new administrator; `passwordHash` is what bcrypt makes of the built-in password, `now` the creation time. */
  function AdminValues(passwordHash: string, now: string): map<string, Sql>
  {
    map["name" := SqlText("System Administrator"), "email" := SqlText(AdminEmail), "password" := SqlText(passwordHash),
        "role" := SqlText("admin"), "admin_level" := SqlText("super_admin"), "is_active" := SqlInt(1),
        "created_at" := SqlText(now)]
  }

  /**
   * Look the administrator up by email: when found with a level other than super_admin, upgrade every
   * user with that email; when found as super_admin, do nothing; when absent, insert it.
   */
  function UpsertSuperAdmin(a: Attempt, passwordHash: string, now: string): Attempt
  {
    if !a.ok then a
    else match SelectByEmail(a.store, "users", AdminEmail)
      case Failed => Attempt(false, a.store)
      case NotFound => Then(a, Insert("users", AdminValues(passwordHash, now)))
      case Found(row) => if IsSuperAdmin(row) then a else Then(a, Promote("users", AdminEmail))
  }

  /** Found with a level other than super_admin: every user with the email is upgraded, nobody else changes. */
  lemma UpsertPromotes(a: Attempt, passwordHash: string, now: string)
    requires a.ok
    requires SelectByEmail(a.store, "users", AdminEmail).Found?
    requires !IsSuperAdmin(SelectByEmail(a.store, "users", AdminEmail).row)
    requires UpsertSuperAdmin(a, passwordHash, now).ok
    ensures var r := UpsertSuperAdmin(a, passwordHash, now).store;
      && r.Keys == a.store.Keys
      && r["users"].columns == a.store["users"].columns
      && r["users"].rows == PromoteRows(a.store["users"].rows, AdminEmail)
      && forall u | u in a.store && u != "users" :: r[u] == a.store[u]
  {
  }

  /** Found as super_admin already: nothing is written. */
  lemma UpsertLeavesSuperAdmin(a: Attempt, passwordHash: string, now: string)
    requires a.ok
    requires SelectByEmail(a.store, "users", AdminEmail).Found?
    requires IsSuperAdmin(SelectByEmail(a.store, "users", AdminEmail).row)
    ensures UpsertSuperAdmin(a, passwordHash, now) == a
  {
  }

  /** The administrator's values name the email, role, level, activity and password columns. */
  lemma AdminValuesFacts(passwordHash: string, now: string)
    ensures var v := AdminValues(passwordHash, now);
      && "email" in v && v["email"] == SqlText(AdminEmail)
      && "role" in v && v["role"] == SqlText("admin")
      && "admin_level" in v && v["admin_level"] == SqlText("super_admin")
      && "is_active" in v && v["is_active"] == SqlInt(1)
      && "password" in v && v["password"] == SqlText(passwordHash)
  {
  }

  /**
   * The row stored for the administrator: an active super_admin with role admin, the administrator's
   * email and the hashed password.
   */
  lemma AdminRow(columns: seq<Column>, passwordHash: string, now: string)
    requires forall c | c in AdminValues(passwordHash, now) :: c in ColumnNames(columns)
    ensures var row := RowOf(columns, AdminValues(passwordHash, now));
      && HasEmail(row, AdminEmail)
      && "role" in row && row["role"] == SqlText("admin")
      && IsSuperAdmin(row)
      && "is_active" in row && row["is_active"] == SqlInt(1)
      && "password" in row && row["password"] == SqlText(passwordHash)
  {
    AdminValuesFacts(passwordHash, now);
  }

  /** Absent: exactly one user is added, at the end, the administrator's row; nothing else changes. */
  lemma UpsertInserts(a: Attempt, passwordHash: string, now: string)
    requires a.ok
    requires SelectByEmail(a.store, "users", AdminEmail).NotFound?
    requires UpsertSuperAdmin(a, passwordHash, now).ok
    ensures var r := UpsertSuperAdmin(a, passwordHash, now).store;
      && r.Keys == a.store.Keys
      && r["users"].columns == a.store["users"].columns
      && r["users"].rows == a.store["users"].rows + [RowOf(a.store["users"].columns, AdminValues(passwordHash, now))]
      && forall u | u in a.store && u != "users" :: r[u] == a.store[u]
  {
    InsertAddsOneRow(a.store, "users", AdminValues(passwordHash, now));
  }

  /** However the upsert goes, no stored password changes and no user disappears. */
  lemma UpsertKeepsPasswords(a: Attempt, passwordHash: string, now: string)
    requires a.ok && "users" in a.store && UpsertSuperAdmin(a, passwordHash, now).ok
    ensures var r := UpsertSuperAdmin(a, passwordHash, now).store;
      && "users" in r
      && |r["users"].rows| >= |a.store["users"].rows|
      && forall i | 0 <= i < |a.store["users"].rows| ::
           ("password" in r["users"].rows[i] <==> "password" in a.store["users"].rows[i])
           && ("password" in a.store["users"].rows[i] ==> r["users"].rows[i]["password"] == a.store["users"].rows[i]["password"])
  {
    match SelectByEmail(a.store, "users", AdminEmail)
    case NotFound => UpsertInserts(a, passwordHash, now);
    case Found(row) =>
      if !IsSuperAdmin(row) {
        UpsertPromotes(a, passwordHash, now);
      }
  }

  lemma UpsertEstablishesByInsert(a: Attempt, passwordHash: string, now: string)
    requires a.ok && SelectByEmail(a.store, "users", AdminEmail).NotFound? && UpsertSuperAdmin(a, passwordHash, now).ok
    ensures var r := UpsertSuperAdmin(a, passwordHash, now).store;
      && SelectByEmail(r, "users", AdminEmail).Found?
      && IsSuperAdmin(SelectByEmail(r, "users", AdminEmail).row)
  {
    var r := UpsertSuperAdmin(a, passwordHash, now).store;
    var values := AdminValues(passwordHash, now);
    var cols := a.store["users"].columns;
    var row := RowOf(cols, values);
    assert HasColumns(a.store, "users", values.Keys) && "users" in r && r["users"].columns == cols
        && r["users"].rows == a.store["users"].rows + [row] by {
      UpsertInserts(a, passwordHash, now);
    }
    assert HasEmail(row, AdminEmail) && IsSuperAdmin(row) by {
      AdminRow(cols, passwordHash, now);
    }
    FindAppended(a.store["users"].rows, row, AdminEmail);
  }

  lemma UpsertEstablishesByPromote(a: Attempt, passwordHash: string, now: string)
    requires a.ok && SelectByEmail(a.store, "users", AdminEmail).Found?
    requires !IsSuperAdmin(SelectByEmail(a.store, "users", AdminEmail).row)
    requires UpsertSuperAdmin(a, passwordHash, now).ok
    ensures var r := UpsertSuperAdmin(a, passwordHash, now).store;
      && SelectByEmail(r, "users", AdminEmail).Found?
      && IsSuperAdmin(SelectByEmail(r, "users", AdminEmail).row)
  {
    UpsertPromotes(a, passwordHash, now);
    FindPromoted(a.store["users"].rows, AdminEmail);
  }

  /** A successful upsert leaves the administrator findable by email with level super_admin. */
  lemma UpsertEstablishes(a: Attempt, passwordHash: string, now: string)
    requires a.ok && UpsertSuperAdmin(a, passwordHash, now).ok
    ensures var r := UpsertSuperAdmin(a, passwordHash, now).store;
      && Keeps(a.store, r)
      && SelectByEmail(r, "users", AdminEmail).Found?
      && IsSuperAdmin(SelectByEmail(r, "users", AdminEmail).row)
  {
    match SelectByEmail(a.store, "users", AdminEmail)
    case NotFound =>
      ThenKeeps(a, Insert("users", AdminValues(passwordHash, now)));
      UpsertEstablishesByInsert(a, passwordHash, now);
    case Found(row) =>
      if !IsSuperAdmin(row) {
        ThenKeeps(a, Promote("users", AdminEmail));
        UpsertEstablishesByPromote(a, passwordHash, now);
      }
  }

  // ---------------------------------------------------------------------------------------------
  // init as a whole

  /** Awaited `CREATE TABLE IF NOT EXISTS` statements, one after another. */
  function CreateTables(a: Attempt, tables: seq<(string, seq<Column>)>): Attempt
    decreases |tables|
  {
    if tables == [] then a
    else Then(CreateTables(a, tables[..|tables| - 1]), CreateTable(tables[|tables| - 1].0, tables[|tables| - 1].1))
  }

  /** CREATE TABLE IF NOT EXISTS never fails, never touches an existing table and leaves every named table present. */
  lemma {:induction false} CreateTablesFacts(a: Attempt, tables: seq<(string, seq<Column>)>)
    requires a.ok
    ensures var r := CreateTables(a, tables);
      && r.ok
      && (forall u | u in a.store :: u in r.store && r.store[u] == a.store[u])
      && forall i | 0 <= i < |tables| :: tables[i].0 in r.store
    decreases |tables|
  {
    if tables != [] {
      var init := tables[..|tables| - 1];
      CreateTablesFacts(a, init);
      var b := CreateTables(a, init);
      var last := tables[|tables| - 1];
      ExecFrame(b.store, CreateTable(last.0, last.1));
      assert forall i | 0 <= i < |init| :: init[i] == tables[i];
    }
  }

  /** When every named table is there already, the CREATE statements change nothing. */
  lemma {:induction false} CreateTablesNoop(a: Attempt, tables: seq<(string, seq<Column>)>)
    requires forall i | 0 <= i < |tables| :: tables[i].0 in a.store
    ensures CreateTables(a, tables) == a
    decreases |tables|
  {
    if tables != [] {
      CreateTablesNoop(a, tables[..|tables| - 1]);
    }
  }

  /** The CREATE statements add no table they do not name. */
  lemma {:induction false} CreateTablesOnlyNamed(a: Attempt, tables: seq<(string, seq<Column>)>, u: string)
    requires u !in a.store && forall j | 0 <= j < |tables| :: tables[j].0 != u
    ensures u !in CreateTables(a, tables).store
    decreases |tables|
  {
    if tables != [] {
      CreateTablesOnlyNamed(a, tables[..|tables| - 1], u);
      var last := tables[|tables| - 1];
      ExecFrame(CreateTables(a, tables[..|tables| - 1]).store, CreateTable(last.0, last.1));
    }
  }

  /** A table that did not exist is created, empty, by the first statement naming it. */
  lemma {:induction false} CreateTablesNew(a: Attempt, tables: seq<(string, seq<Column>)>, i: nat)
    requires a.ok && i < |tables| && tables[i].0 !in a.store
    requires forall j | 0 <= j < i :: tables[j].0 != tables[i].0
    ensures var r := CreateTables(a, tables).store;
      tables[i].0 in r && r[tables[i].0] == Table(tables[i].1, [])
    decreases |tables|
  {
    var init := tables[..|tables| - 1];
    var last := tables[|tables| - 1];
    var b := CreateTables(a, init);
    CreateTablesFacts(a, init);
    if i < |tables| - 1 {
      CreateTablesNew(a, init, i);
    } else {
      CreateTablesOnlyNamed(a, init, tables[i].0);
    }
    ExecFrame(b.store, CreateTable(last.0, last.1));
  }

  lemma CreateTablesKeeps(a: Attempt, tables: seq<(string, seq<Column>)>)
    requires a.ok
    ensures Keeps(a.store, CreateTables(a, tables).store)
  {
    CreateTablesFacts(a, tables);
  }

  /** The two tables created before the migrations. */
  const EarlyTables: seq<(string, seq<Column>)> := [("listings", ListingsSchema), ("bookings", BookingsSchema)]

  /** The seven tables created after the migrations. */
  const LateTables: seq<(string, seq<Column>)> := [
    ("contacts", ContactsSchema), ("listing_images", ListingImagesSchema), ("users", UsersSchema),
    ("activity_logs", ActivityLogsSchema), ("filter_services", FilterServicesSchema),
    ("listing_services", ListingServicesSchema), ("browse_categories", BrowseCategoriesSchema)
  ]

  /** The two try blocks; whatever fails inside them is caught, so `init` always goes on. */
  function Migrate(a: Attempt): Attempt
  {
    if a.ok then Attempt(true, MigrateUsers(MigrateBookings(a.store))) else a
  }

  /** The rows the seeding steps write into empty tables. */
  datatype Seeds = Seeds(filters: seq<map<string, Sql>>, categories: seq<map<string, Sql>>,
                         listings: seq<map<string, Sql>>, images: seq<map<string, Sql>>)

  /** The seed rows of `init`, with `now` for every creation time. */
  function DefaultSeeds(now: string): (r: Seeds)
    ensures |r.filters| == 21 && |r.categories| == 4 && |r.listings| == 11
  {
    Seeds(FilterRows(now), CategoryRows(now), ListingRows(now), ImageRows(ImagePairs(ImageUrls, |ImageUrls|)))
  }

  /** The schema part of `init`: two CREATE statements, the two migration blocks, seven CREATE statements. */
  function Schema(s: Store): Attempt
  {
    CreateTables(Migrate(CreateTables(Attempt(true, s), EarlyTables)), LateTables)
  }

  /** The data part of `init`: the three seeding steps and the administrator upsert. */
  function Seeding(a: Attempt, passwordHash: string, now: string, seeds: Seeds): Attempt
  {
    var a := SeedIfEmpty(a, "filter_services", seeds.filters);
    var a := SeedIfEmpty(a, "browse_categories", seeds.categories);
    var a := SeedListings(a, seeds.listings, seeds.images);
    UpsertSuperAdmin(a, passwordHash, now)
  }

  /** `init` with the given seed rows. */
  function InitWith(s: Store, passwordHash: string, now: string, seeds: Seeds): Attempt
  {
    Seeding(Schema(s), passwordHash, now, seeds)
  }

  /** `init()`: whether its promise resolves, and the database it leaves behind either way. */
  function InitState(s: Store, passwordHash: string, now: string): Attempt
  {
    InitWith(s, passwordHash, now, DefaultSeeds(now))
  }

  /** Every table `init` creates exists, with every column its migrations add. */
  predicate Prepared(s: Store)
  {
    && "listings" in s && "bookings" in s && "contacts" in s && "listing_images" in s && "users" in s
    && "activity_logs" in s && "filter_services" in s && "listing_services" in s && "browse_categories" in s
    && HasPaymentColumns(s)
    && HasUserColumns(s)
  }

  predicate HasPaymentColumns(s: Store)
  {
    forall c | c in PaymentColumns :: c.name in TableInfo(s, "bookings")
  }

  predicate HasUserColumns(s: Store)
  {
    (forall c | c in UserColumns :: c.name in TableInfo(s, "users")) && IsActive.name in TableInfo(s, "users")
  }

  /** What a successful `init` leaves: the schema, non-empty seeded tables and the super administrator. */
  predicate Initialized(s: Store)
  {
    && Prepared(s)
    && RowCount(s, "filter_services") > 0
    && RowCount(s, "browse_categories") > 0
    && RowCount(s, "listings") > 0
    && SelectByEmail(s, "users", AdminEmail).Found?
    && IsSuperAdmin(SelectByEmail(s, "users", AdminEmail).row)
  }

  lemma PreparedKept(s: Store, s': Store)
    requires Prepared(s) && Keeps(s, s')
    ensures Prepared(s')
  {
    forall c | c in PaymentColumns
      ensures c.name in TableInfo(s', "bookings")
    {
      KeepsColumn(s, s', "bookings", c.name);
    }
    forall c | c in UserColumns
      ensures c.name in TableInfo(s', "users")
    {
      KeepsColumn(s, s', "users", c.name);
    }
    KeepsColumn(s, s', "users", IsActive.name);
  }

  lemma MigrateUsersNoop(s: Store)
    requires forall c | c in UserColumns :: c.name in TableInfo(s, "users")
    requires IsActive.name in TableInfo(s, "users")
    ensures MigrateUsers(s) == s
  {
    AddAllMissingNoop(Attempt(true, s), TableInfo(s, "users"), "users", UserColumns);
  }

  /** The names of the tables created before and after the migrations. */
  lemma TableNames()
    ensures |EarlyTables| == 2 && EarlyTables[0].0 == "listings" && EarlyTables[1].0 == "bookings"
    ensures |LateTables| == 7 && LateTables[0].0 == "contacts" && LateTables[1].0 == "listing_images"
      && LateTables[2].0 == "users" && LateTables[3].0 == "activity_logs" && LateTables[4].0 == "filter_services"
      && LateTables[5].0 == "listing_services" && LateTables[6].0 == "browse_categories"
  {
  }

  /** A prepared database already has every table the CREATE statements name. */
  lemma PreparedHasTables(s: Store)
    requires Prepared(s)
    ensures forall i | 0 <= i < |EarlyTables| :: EarlyTables[i].0 in s
    ensures forall i | 0 <= i < |LateTables| :: LateTables[i].0 in s
  {
    TableNames();
    forall i | 0 <= i < |EarlyTables|
      ensures EarlyTables[i].0 in s
    {
      assert i == 0 || i == 1;
    }
    forall i | 0 <= i < |LateTables|
      ensures LateTables[i].0 in s
    {
      assert i == 0 || i == 1 || i == 2 || i == 3 || i == 4 || i == 5 || i == 6;
    }
  }

  /** On a prepared database no CREATE and no migration changes anything. */
  lemma SchemaStepsNoop(s: Store)
    requires Prepared(s)
    ensures Schema(s) == Attempt(true, s)
  {
    assert CreateTables(Attempt(true, s), EarlyTables) == Attempt(true, s)
        && CreateTables(Attempt(true, s), LateTables) == Attempt(true, s) by {
      PreparedHasTables(s);
      CreateTablesNoop(Attempt(true, s), EarlyTables);
      CreateTablesNoop(Attempt(true, s), LateTables);
    }
    assert MigrateUsers(MigrateBookings(s)) == s by {
      MigrateBookingsNoop(s);
      MigrateUsersNoop(s);
    }
  }

  /** On an initialised database no seeding step and no upsert changes anything. */
  lemma SeedingStepsNoop(a: Attempt, passwordHash: string, now: string, seeds: Seeds)
    requires a.ok && Initialized(a.store)
    ensures SeedIfEmpty(a, "filter_services", seeds.filters) == a
    ensures SeedIfEmpty(a, "browse_categories", seeds.categories) == a
    ensures SeedListings(a, seeds.listings, seeds.images) == a
    ensures UpsertSuperAdmin(a, passwordHash, now) == a
  {
  }

  /** On an initialised database `init` resolves and changes nothing at all. */
  lemma InitializedIsFixpoint(s: Store, passwordHash: string, now: string, seeds: Seeds)
    requires Initialized(s)
    ensures InitWith(s, passwordHash, now, seeds) == Attempt(true, s)
  {
    SchemaStepsNoop(s);
    SeedingStepsNoop(Attempt(true, s), passwordHash, now, seeds);
  }

  /** A users table created by `CREATE TABLE users` has every column the users block would add. */
  lemma UsersSchemaHasColumns(s: Store)
    requires "users" in s && s["users"].columns == UsersSchema
    ensures HasUserColumns(s)
  {
    var names := ColumnNames(UsersSchema);
    assert names[9] == LastLogin.name && names[5] == AdminLevel.name && names[6] == CreatedBy.name && names[7] == IsActive.name;
  }

  /** After the two early CREATE statements listings and bookings exist and nothing was lost. */
  lemma EarlyStage(s: Store)
    ensures var a := CreateTables(Attempt(true, s), EarlyTables);
      a.ok && "listings" in a.store && "bookings" in a.store && Keeps(s, a.store)
  {
    TableNames();
    CreateTablesFacts(Attempt(true, s), EarlyTables);
  }

  /**
   * After the two migration blocks bookings has the payment columns, a users table, if there is one,
   * has the user columns, and nothing was lost.
   */
  lemma MigrateStage(s: Store)
    requires "listings" in s && "bookings" in s
    ensures var m := MigrateUsers(MigrateBookings(s));
      && "listings" in m && "bookings" in m && Keeps(s, m)
      && HasPaymentColumns(m)
      && ("users" in m ==> HasUserColumns(m))
  {
    var b := MigrateBookings(s);
    MigrateBookingsAdds(s);
    var m := MigrateUsers(b);
    if "users" in b {
      MigrateUsersAdds(b);
      forall c | c in PaymentColumns
        ensures c.name in TableInfo(m, "bookings")
      {
        KeepsColumn(b, m, "bookings", c.name);
      }
      KeepsTrans(s, b, m);
    } else {
      MigrateUsersMissing(b);
    }
  }

  /** After the seven late CREATE statements all nine tables exist and nothing was lost. */
  lemma LateStage(m: Store)
    requires "listings" in m && "bookings" in m
    ensures var a := CreateTables(Attempt(true, m), LateTables);
      && a.ok && Keeps(m, a.store)
      && "listings" in a.store && "bookings" in a.store && "contacts" in a.store && "listing_images" in a.store
      && "users" in a.store && "activity_logs" in a.store && "filter_services" in a.store
      && "listing_services" in a.store && "browse_categories" in a.store
  {
    TableNames();
    CreateTablesFacts(Attempt(true, m), LateTables);
  }

  /** The late CREATE statements leave an existing users table alone and otherwise create it empty. */
  lemma LateUsers(m: Store)
    ensures var a := CreateTables(Attempt(true, m), LateTables);
      && "users" in a.store
      && ("users" in m ==> a.store["users"] == m["users"])
      && ("users" !in m ==> a.store["users"] == Table(UsersSchema, []))
  {
    TableNames();
    CreateTablesFacts(Attempt(true, m), LateTables);
    if "users" !in m {
      CreateTablesNew(Attempt(true, m), LateTables, 2);
    }
  }

  /** The early CREATE statements cannot fail, so the migration blocks always run. */
  lemma SchemaAfterMigration(s: Store)
    ensures var a1 := CreateTables(Attempt(true, s), EarlyTables);
      Schema(s) == CreateTables(Attempt(true, MigrateUsers(MigrateBookings(a1.store))), LateTables)
  {
    CreateTablesFacts(Attempt(true, s), EarlyTables);
  }

  /** After the late CREATE statements a migrated database has every table and every migrated column. */
  lemma LatePrepared(m: Store)
    requires "listings" in m && "bookings" in m && HasPaymentColumns(m)
    requires "users" in m ==> HasUserColumns(m)
    ensures var a := CreateTables(Attempt(true, m), LateTables);
      a.ok && Prepared(a.store) && Keeps(m, a.store)
  {
    var a := CreateTables(Attempt(true, m), LateTables);
    assert a.ok && Keeps(m, a.store)
        && "listings" in a.store && "bookings" in a.store && "contacts" in a.store && "listing_images" in a.store
        && "users" in a.store && "activity_logs" in a.store && "filter_services" in a.store
        && "listing_services" in a.store && "browse_categories" in a.store by {
      LateStage(m);
    }
    assert HasPaymentColumns(a.store) by {
      forall c | c in PaymentColumns
        ensures c.name in TableInfo(a.store, "bookings")
      {
        KeepsColumn(m, a.store, "bookings", c.name);
      }
    }
    assert HasUserColumns(a.store) by {
      LateUsers(m);
      if "users" in m {
        assert TableInfo(a.store, "users") == TableInfo(m, "users");
      } else {
        UsersSchemaHasColumns(a.store);
      }
    }
  }

  /** The early CREATE statements and the migration blocks leave listings and a migrated bookings table. */
  lemma EarlyMigrated(s: Store)
    ensures var m := MigrateUsers(MigrateBookings(CreateTables(Attempt(true, s), EarlyTables).store));
      && "listings" in m && "bookings" in m && HasPaymentColumns(m)
      && ("users" in m ==> HasUserColumns(m))
      && Keeps(s, m)
  {
    var a1 := CreateTables(Attempt(true, s), EarlyTables);
    assert a1.ok && "listings" in a1.store && "bookings" in a1.store && Keeps(s, a1.store) by {
      EarlyStage(s);
    }
    var m := MigrateUsers(MigrateBookings(a1.store));
    assert Keeps(a1.store, m) by {
      MigrateStage(a1.store);
    }
    MigrateStage(a1.store);
    KeepsTrans(s, a1.store, m);
  }

  /** Before seeding, every table exists with every migrated column, whatever the database was. */
  lemma PreparedBeforeSeeding(s: Store)
    ensures var a := Schema(s);
      a.ok && Prepared(a.store) && Keeps(s, a.store)
  {
    var m := MigrateUsers(MigrateBookings(CreateTables(Attempt(true, s), EarlyTables).store));
    var a := CreateTables(Attempt(true, m), LateTables);
    assert a == Schema(s) by {
      SchemaAfterMigration(s);
    }
    EarlyMigrated(s);
    LatePrepared(m);
    KeepsTrans(s, m, a.store);
  }

  /** A successful seeding step leaves its table non-empty and drops nothing. */
  lemma SeedIfEmptyFacts(a: Attempt, t: string, rows: seq<map<string, Sql>>)
    requires a.ok && |rows| > 0 && SeedIfEmpty(a, t, rows).ok
    ensures var r := SeedIfEmpty(a, t, rows).store;
      RowCount(r, t) > 0 && Keeps(a.store, r)
  {
    if RowCount(a.store, t) == 0 {
      InsertAllRows(a, t, rows);
      InsertAllKeeps(a, t, rows);
    }
  }

  lemma SeedListingsFacts(a: Attempt, listings: seq<map<string, Sql>>, images: seq<map<string, Sql>>)
    requires a.ok && |listings| > 0 && SeedListings(a, listings, images).ok
    ensures var r := SeedListings(a, listings, images).store;
      RowCount(r, "listings") > 0 && Keeps(a.store, r)
  {
    if RowCount(a.store, "listings") == 0 {
      var b := InsertAll(a, "listings", listings);
      InsertAllAfterFailure(b, "listing_images", images);
      InsertAllRows(a, "listings", listings);
      InsertAllKeeps(a, "listings", listings);
      InsertAllKeeps(b, "listing_images", images);
      KeepsTrans(a.store, b.store, SeedListings(a, listings, images).store);
    }
  }

  /** When `init` resolves, the database it leaves is initialised. */
  lemma InitEstablishes(s: Store, passwordHash: string, now: string, seeds: Seeds)
    requires |seeds.filters| > 0 && |seeds.categories| > 0 && |seeds.listings| > 0
    requires InitWith(s, passwordHash, now, seeds).ok
    ensures Initialized(InitWith(s, passwordHash, now, seeds).store)
  {
    var a3 := Schema(s);
    PreparedBeforeSeeding(s);
    var a4 := SeedIfEmpty(a3, "filter_services", seeds.filters);
    var a5 := SeedIfEmpty(a4, "browse_categories", seeds.categories);
    var a6 := SeedListings(a5, seeds.listings, seeds.images);
    var a7 := UpsertSuperAdmin(a6, passwordHash, now);
    assert a6.ok && a5.ok && a4.ok;
    SeedIfEmptyFacts(a3, "filter_services", seeds.filters);
    SeedIfEmptyFacts(a4, "browse_categories", seeds.categories);
    SeedListingsFacts(a5, seeds.listings, seeds.images);
    UpsertEstablishes(a6, passwordHash, now);
    KeepsTrans(a3.store, a4.store, a5.store);
    KeepsTrans(a3.store, a5.store, a6.store);
    KeepsTrans(a3.store, a6.store, a7.store);
    KeepsTrans(a4.store, a5.store, a6.store);
    KeepsTrans(a4.store, a6.store, a7.store);
    KeepsTrans(a5.store, a6.store, a7.store);
    PreparedKept(a3.store, a7.store);
  }

  /** Running `init` again after it resolved, with any seed rows, resolves and changes nothing. */
  lemma InitWithIdempotent(s: Store, passwordHash: string, now: string, seeds: Seeds,
                           passwordHash': string, now': string, seeds': Seeds)
    requires |seeds.filters| > 0 && |seeds.categories| > 0 && |seeds.listings| > 0
    requires InitWith(s, passwordHash, now, seeds).ok
    ensures var r := InitWith(s, passwordHash, now, seeds);
      InitWith(r.store, passwordHash', now', seeds') == r
  {
    var r := InitWith(s, passwordHash, now, seeds);
    InitEstablishes(s, passwordHash, now, seeds);
    InitializedIsFixpoint(r.store, passwordHash', now', seeds');
  }

  /**
   * Running `init` again after it resolved, with any password hash and any clock, resolves and
   * changes nothing: no table, column or row is added, removed or altered.
   */
  lemma InitIdempotent(s: Store, passwordHash: string, now: string, passwordHash': string, now': string)
    requires InitState(s, passwordHash, now).ok
    ensures InitState(InitState(s, passwordHash, now).store, passwordHash', now') == InitState(s, passwordHash, now)
  {
    InitWithIdempotent(s, passwordHash, now, DefaultSeeds(now), passwordHash', now', DefaultSeeds(now'));
  }

  // ---------------------------------------------------------------------------------------------
  // A new database

  /** The early CREATE statements on an empty database make listings and bookings, empty, and nothing else. */
  lemma FreshEarly()
    ensures var a := CreateTables(Attempt(true, map[]), EarlyTables);
      && a.ok
      && "listings" in a.store && a.store["listings"] == Table(ListingsSchema, [])
      && "bookings" in a.store && a.store["bookings"] == Table(BookingsSchema, [])
      && forall j | 0 <= j < |LateTables| :: LateTables[j].0 !in a.store
  {
    var e := Attempt(true, map[]);
    TableNames();
    CreateTablesFacts(e, EarlyTables);
    CreateTablesNew(e, EarlyTables, 0);
    CreateTablesNew(e, EarlyTables, 1);
    forall j | 0 <= j < |LateTables|
      ensures LateTables[j].0 !in CreateTables(e, EarlyTables).store
    {
      CreateTablesOnlyNamed(e, EarlyTables, LateTables[j].0);
    }
  }

  /** A bookings table made by `CREATE TABLE bookings` already has the payment columns. */
  lemma BookingsSchemaHasPayment(s: Store)
    requires "bookings" in s && s["bookings"].columns == BookingsSchema
    ensures HasPaymentColumns(s)
  {
    var names := ColumnNames(BookingsSchema);
    assert names[7] == "payment_status" && names[8] == "payment_intent_id" && names[9] == "total_amount";
  }

  /** On a new database both migration blocks change nothing: bookings was just created whole, users not yet. */
  lemma FreshMigrate()
    ensures var a := CreateTables(Attempt(true, map[]), EarlyTables);
      MigrateUsers(MigrateBookings(a.store)) == a.store
  {
    var a := CreateTables(Attempt(true, map[]), EarlyTables);
    FreshEarly();
    TableNames();
    BookingsSchemaHasPayment(a.store);
    MigrateBookingsNoop(a.store);
    assert LateTables[2].0 !in a.store;
    MigrateUsersMissing(a.store);
  }

  /** The tables the seeding steps write to, as a new database has them after the schema part. */
  predicate FreshTables(s: Store)
  {
    && "filter_services" in s && s["filter_services"] == Table(FilterServicesSchema, [])
    && "browse_categories" in s && s["browse_categories"] == Table(BrowseCategoriesSchema, [])
    && "listings" in s && s["listings"] == Table(ListingsSchema, [])
    && "listing_images" in s && s["listing_images"] == Table(ListingImagesSchema, [])
    && "users" in s && s["users"] == Table(UsersSchema, [])
  }

  /** The late CREATE statements make each late table that is not there yet, empty and as declared. */
  lemma LateNew(m: Store, i: nat)
    requires i < |LateTables| && LateTables[i].0 !in m
    ensures var r := CreateTables(Attempt(true, m), LateTables).store;
      LateTables[i].0 in r && r[LateTables[i].0] == Table(LateTables[i].1, [])
  {
    forall j | 0 <= j < i
      ensures LateTables[j].0 != LateTables[i].0
    {
      TableNames();
    }
    CreateTablesNew(Attempt(true, m), LateTables, i);
  }

  /** On a database with only the early tables, the late CREATE statements leave the seeded tables empty, as declared. */
  lemma FreshLate(m: Store)
    requires "listings" in m && m["listings"] == Table(ListingsSchema, [])
    requires forall j | 0 <= j < |LateTables| :: LateTables[j].0 !in m
    ensures var a := CreateTables(Attempt(true, m), LateTables);
      a.ok && FreshTables(a.store)
  {
    CreateTablesFacts(Attempt(true, m), LateTables);
    LateNew(m, 1);
    LateNew(m, 2);
    LateNew(m, 4);
    LateNew(m, 6);
    TableNames();
  }

  /** The schema part of `init` on an empty database succeeds and leaves the seeded tables empty, as declared. */
  lemma FreshSchema()
    ensures Schema(map[]).ok && FreshTables(Schema(map[]).store)
  {
    var a1 := CreateTables(Attempt(true, map[]), EarlyTables);
    FreshEarly();
    FreshMigrate();
    SchemaAfterMigration(map[]);
    FreshLate(a1.store);
  }

  /** Every value map names only columns of the table. */
  predicate Fits(rows: seq<map<string, Sql>>, columns: seq<Column>)
  {
    forall i, c | 0 <= i < |rows| && c in rows[i] :: c in ColumnNames(columns)
  }

  /** Inserts whose value maps fit the table all succeed. */
  lemma {:induction false} InsertAllOk(a: Attempt, t: string, rows: seq<map<string, Sql>>)
    requires a.ok && t in a.store && Fits(rows, a.store[t].columns)
    ensures InsertAll(a, t, rows).ok
    decreases |rows|
  {
    if rows != [] {
      var init := rows[..|rows| - 1];
      assert Fits(init, a.store[t].columns) by {
        forall i, c | 0 <= i < |init| && c in init[i]
          ensures c in ColumnNames(a.store[t].columns)
        {
          assert init[i] == rows[i];
        }
      }
      InsertAllOk(a, t, init);
      InsertAllFrame(a, t, init);
      var last := rows[|rows| - 1];
      assert forall c | c in last :: c in ColumnNames(a.store[t].columns);
    }
  }

  /** One successful seeding step into a fitting table: the step succeeds and no other table changes. */
  lemma InsertAllFits(a: Attempt, t: string, rows: seq<map<string, Sql>>)
    requires a.ok && t in a.store && Fits(rows, a.store[t].columns)
    ensures var r := InsertAll(a, t, rows);
      && r.ok && r.store.Keys == a.store.Keys
      && forall u | u in a.store && u != t :: r.store[u] == a.store[u]
  {
    InsertAllOk(a, t, rows);
    InsertAllFrame(a, t, rows);
  }

  /** The administrator's INSERT names only columns of `CREATE TABLE users`. */
  lemma AdminFits(passwordHash: string, now: string)
    ensures forall c | c in AdminValues(passwordHash, now) :: c in ColumnNames(UsersSchema)
  {
    var names := ColumnNames(UsersSchema);
    assert names[1] == "name" && names[2] == "email" && names[3] == "password" && names[4] == "role";
    assert names[5] == "admin_level" && names[7] == "is_active" && names[8] == "created_at";
  }

  /** On an empty users table the administrator is inserted. */
  lemma FreshUpsert(a: Attempt, passwordHash: string, now: string)
    requires a.ok && "users" in a.store && a.store["users"] == Table(UsersSchema, [])
    ensures UpsertSuperAdmin(a, passwordHash, now).ok
  {
    AdminFits(passwordHash, now);
    assert ColumnNames(UsersSchema)[2] == "email";
    assert HasColumns(a.store, "users", {"email"});
    assert SelectByEmail(a.store, "users", AdminEmail).NotFound?;
    assert HasColumns(a.store, "users", AdminValues(passwordHash, now).Keys);
  }

  /** On the new, empty tables, seed rows that fit their tables make every seeding step and the upsert succeed. */
  lemma FreshSeeding(a: Attempt, passwordHash: string, now: string, seeds: Seeds)
    requires a.ok && FreshTables(a.store)
    requires Fits(seeds.filters, FilterServicesSchema) && Fits(seeds.categories, BrowseCategoriesSchema)
    requires Fits(seeds.listings, ListingsSchema) && Fits(seeds.images, ListingImagesSchema)
    ensures Seeding(a, passwordHash, now, seeds).ok
  {
    var a4 := SeedIfEmpty(a, "filter_services", seeds.filters);
    InsertAllFits(a, "filter_services", seeds.filters);
    var a5 := SeedIfEmpty(a4, "browse_categories", seeds.categories);
    InsertAllFits(a4, "browse_categories", seeds.categories);
    var b := InsertAll(a5, "listings", seeds.listings);
    InsertAllFits(a5, "listings", seeds.listings);
    var a6 := SeedListings(a5, seeds.listings, seeds.images);
    assert a6 == InsertAll(b, "listing_images", seeds.images);
    InsertAllFits(b, "listing_images", seeds.images);
    FreshUpsert(a6, passwordHash, now);
  }

  lemma FilterRowsFit(now: string)
    ensures Fits(FilterRows(now), FilterServicesSchema)
  {
    var names := ColumnNames(FilterServicesSchema);
    assert names[1] == "category" && names[2] == "name" && names[3] == "icon" && names[4] == "filter_key";
    assert names[5] == "display_order" && names[7] == "created_at";
    forall i | 0 <= i < |FilterRows(now)|
      ensures FilterRows(now)[i] == FilterValues(FilterSeeds[i], now)
    {
    }
  }

  lemma CategoryRowsFit(now: string)
    ensures Fits(CategoryRows(now), BrowseCategoriesSchema)
  {
    var names := ColumnNames(BrowseCategoriesSchema);
    assert names[1] == "title" && names[2] == "description" && names[3] == "filter_params" && names[4] == "image_url";
    assert names[5] == "display_order" && names[6] == "is_active" && names[7] == "created_at";
    forall i | 0 <= i < |CategoryRows(now)|
      ensures CategoryRows(now)[i] == CategoryValues(CategorySeeds[i], now)
    {
    }
  }

  lemma ListingRowsFit(now: string)
    ensures Fits(ListingRows(now), ListingsSchema)
  {
    var names := ColumnNames(ListingsSchema);
    assert names[1] == "title" && names[2] == "description" && names[3] == "price" && names[4] == "location";
    assert names[5] == "created_at";
    forall i | 0 <= i < |ListingRows(now)|
      ensures ListingRows(now)[i] == ListingValues(ListingSeeds[i], now)
    {
    }
  }

  lemma ImageRowsFit(pairs: seq<(int, string)>)
    ensures Fits(ImageRows(pairs), ListingImagesSchema)
  {
    var names := ColumnNames(ListingImagesSchema);
    assert names[1] == "listing_id" && names[2] == "url";
    forall i | 0 <= i < |ImageRows(pairs)|
      ensures ImageRows(pairs)[i] == ImageValues(pairs[i].0, pairs[i].1)
    {
    }
  }

  /** `init` with seed rows that fit their tables resolves on an empty database and initialises it. */
  lemma InitWithFresh(passwordHash: string, now: string, seeds: Seeds)
    requires |seeds.filters| > 0 && |seeds.categories| > 0 && |seeds.listings| > 0
    requires Fits(seeds.filters, FilterServicesSchema) && Fits(seeds.categories, BrowseCategoriesSchema)
    requires Fits(seeds.listings, ListingsSchema) && Fits(seeds.images, ListingImagesSchema)
    ensures InitWith(map[], passwordHash, now, seeds).ok
    ensures Initialized(InitWith(map[], passwordHash, now, seeds).store)
  {
    FreshSchema();
    FreshSeeding(Schema(map[]), passwordHash, now, seeds);
    InitEstablishes(map[], passwordHash, now, seeds);
  }

  /** The default seed rows fit the tables they go into. */
  lemma DefaultSeedsFit(now: string)
    ensures var seeds := DefaultSeeds(now);
      && Fits(seeds.filters, FilterServicesSchema) && Fits(seeds.categories, BrowseCategoriesSchema)
      && Fits(seeds.listings, ListingsSchema) && Fits(seeds.images, ListingImagesSchema)
  {
    FilterRowsFit(now);
    CategoryRowsFit(now);
    ListingRowsFit(now);
    ImageRowsFit(ImagePairs(ImageUrls, |ImageUrls|));
  }

  /**
   * `init` on a new, empty database resolves, whatever the clock and the password hash, and leaves
   * the schema, seeded filter services, categories and listings, and the super administrator.
   */
  lemma InitFreshResolves(passwordHash: string, now: string)
    ensures InitState(map[], passwordHash, now).ok
    ensures Initialized(InitState(map[], passwordHash, now).store)
  {
    DefaultSeedsFit(now);
    InitWithFresh(passwordHash, now, DefaultSeeds(now));
  }
}

/** The catalogue's records: `Item` with its `Status`, and `ItemImage`. */
module Models {

  import opened Wrappers
  import opened Text
  import opened Files

  /** `Item.Status`: the stored value of each choice is its name. */
  datatype Status = FOUND | CLAIMED

  /** A new item is FOUND unless told otherwise. */
  const DefaultStatus: Status := FOUND

  /** The value stored in the `status` column. */
  function StatusValue(s: Status): string {
    match s
    case FOUND => "FOUND"
    case CLAIMED => "CLAIMED"
  }

  /** The choice a stored value names, if any: the `choices` validation of the field. */
  function ParseStatus(v: string): (r: Option<Status>)
    ensures r.Some? ==> StatusValue(r.value) == v
  {
    if v == "FOUND" then Some(FOUND) else if v == "CLAIMED" then Some(CLAIMED) else None
  }

  /** Exactly two values are valid, and each choice reads back as itself. */
  lemma StatusChoices(v: string, s: Status)
    ensures ParseStatus(v).Some? <==> v == "FOUND" || v == "CLAIMED"
    ensures ParseStatus(StatusValue(s)) == Some(s)
    ensures |StatusValue(s)| <= 20
  {
  }

  /** A calendar day (`DateField`), as a day number. */
  type Date = int

  /** An instant (`DateTimeField`), as a timestamp. */
  type DateTime = int

  /** A user's primary key. */
  type UserId = nat

  datatype Item = Item(
    id: nat,
    title: string,
    description: string,
    locationFound: string,
    dateFound: Date,
    status: Status,
    createdBy: Option<UserId>,   // null after the creating user is deleted
    createdAt: DateTime,         // auto_now_add
    updatedAt: DateTime)         // auto_now

  datatype ItemImage = ItemImage(id: nat, item: nat, image: FieldFile, createdAt: DateTime)

  /** The values a form supplies for a new item; `status` is `None` when the form leaves it out. */
  datatype ItemFields = ItemFields(
    title: string,
    description: string,
    locationFound: string,
    dateFound: Date,
    status: Option<Status>)

  /** The item saved from `fields` at time `now`. */
  function NewItem(id: nat, fields: ItemFields, createdBy: Option<UserId>, now: DateTime): (r: Item)
    ensures r.id == id && r.title == fields.title && r.description == fields.description
    ensures r.locationFound == fields.locationFound && r.dateFound == fields.dateFound
    ensures fields.status.None? ==> r.status == FOUND
    ensures fields.status.Some? ==> r.status == fields.status.value
    ensures r.createdBy == createdBy && r.createdAt == now && r.updatedAt == now
  {
    Item(id, fields.title, fields.description, fields.locationFound, fields.dateFound,
         fields.status.GetOr(DefaultStatus), createdBy, now, now)
  }

  /** `str(item)` */
  function ItemString(item: Item): string {
    item.title
  }

  /** `str(image)`: "Image for " and then the id of its item. */
  function ImageString(img: ItemImage): string {
    "Image for " + NatToString(img.item)
  }

  /** `str(item)` is its title, and `str(image)` names its item in a way that can be read back. */
  lemma StringForms(item: Item, img: ItemImage)
    ensures ItemString(item) == item.title
    ensures StartsWith(ImageString(img), "Image for ")
    ensures var digits := ImageString(img)[10..];
      && AllDigits(digits) && ParseDigits(digits) == img.item
      && |digits| >= 1 && (|digits| > 1 ==> digits[0] != '0')
  {
    var s := ImageString(img);
    assert s[10..] == NatToString(img.item);
    ParseNatToString(img.item);
  }

  /**
   * `Meta.ordering = ["-date_found", "-created_at"]`: `a` may be listed before `b` when it
   * was found later, or on the same day and created no earlier.
   */
  predicate ListedBefore(a: Item, b: Item) {
    a.dateFound > b.dateFound || (a.dateFound == b.dateFound && a.createdAt >= b.createdAt)
  }

  /** The ordering is total and transitive, so it is a valid sort order. */
  lemma ListedBeforeIsTotalPreorder(a: Item, b: Item, c: Item)
    ensures ListedBefore(a, a)
    ensures ListedBefore(a, b) || ListedBefore(b, a)
    ensures ListedBefore(a, b) && ListedBefore(b, c) ==> ListedBefore(a, c)
  {
  }

  predicate InDefaultOrder(s: seq<Item>) {
    forall i, j :: 0 <= i < j < |s| ==> ListedBefore(s[i], s[j])
  }

  /** Putting an item in front of an ordered list that it may precede keeps the list ordered. */
  lemma ConsInDefaultOrder(h: Item, t: seq<Item>)
    requires InDefaultOrder(t)
    requires forall y :: y in t ==> ListedBefore(h, y)
    ensures InDefaultOrder([h] + t)
  {
    var r := [h] + t;
    forall i, j | 0 <= i < j < |r| ensures ListedBefore(r[i], r[j]) {
      if i == 0 {
        assert r[j] == t[j - 1] && t[j - 1] in t;
      } else {
        assert r[i] == t[i - 1] && r[j] == t[j - 1];
      }
    }
  }

  /** In an ordered list the head may precede every later element. */
  lemma HeadPrecedesRest(s: seq<Item>)
    requires InDefaultOrder(s) && s != []
    ensures forall y :: y in s[1..] ==> ListedBefore(s[0], y)
  {
    forall y | y in s[1..] ensures ListedBefore(s[0], y) {
      var k :| 0 <= k < |s[1..]| && s[1..][k] == y;
      assert s[k + 1] == y;
    }
  }

  /** What may precede the head of an ordered list may precede all of it. */
  lemma PrecedesViaHead(x: Item, s: seq<Item>)
    requires InDefaultOrder(s) && s != [] && ListedBefore(x, s[0])
    ensures forall y :: y in s ==> ListedBefore(x, y)
  {
    HeadPrecedesRest(s);
    assert s == [s[0]] + s[1..];
  }

  /** Precedence over every element carries over to the same elements plus one more it precedes. */
  lemma PrecedesPermutation(h: Item, t: seq<Item>, x: Item, r: seq<Item>)
    requires forall y :: y in t ==> ListedBefore(h, y)
    requires ListedBefore(h, x)
    requires multiset(r) == multiset(t) + multiset{x}
    ensures forall y :: y in r ==> ListedBefore(h, y)
  {
    forall y | y in r ensures ListedBefore(h, y) {
      assert y in multiset(r);
      if y != x {
        assert y in multiset(t);
      }
    }
  }

  function Insert(x: Item, s: seq<Item>): (r: seq<Item>)
    requires InDefaultOrder(s)
    ensures InDefaultOrder(r)
    ensures multiset(r) == multiset(s) + multiset{x}
  {
    if s == [] then [x]
    else
      assert s == [s[0]] + s[1..];
      if ListedBefore(x, s[0]) then
        PrecedesViaHead(x, s);
        ConsInDefaultOrder(x, s);
        [x] + s
      else
        var rest := Insert(x, s[1..]);
        HeadPrecedesRest(s);
        PrecedesPermutation(s[0], s[1..], x, rest);
        ConsInDefaultOrder(s[0], rest);
        [s[0]] + rest
  }

  /** A query's rows in the default ordering: sorted, and the same rows. */
  function DefaultOrdered(s: seq<Item>): (r: seq<Item>)
    ensures InDefaultOrder(r)
    ensures multiset(r) == multiset(s)
  {
    if s == [] then []
    else
      assert s == [s[0]] + s[1..];
      Insert(s[0], DefaultOrdered(s[1..]))
  }

  /**
   * `ItemImage.item` is `on_delete=CASCADE`: deleting an item deletes the images that
   * belong to it and keeps every other image as it was.
   */
  function ImagesAfterItemDelete(images: map<nat, ItemImage>, itemId: nat): (r: map<nat, ItemImage>)
    ensures forall k :: k in r ==> k in images && r[k] == images[k] && r[k].item != itemId
    ensures forall k :: k in images && images[k].item != itemId ==> k in r
  {
    map k | k in images && images[k].item != itemId :: images[k]
  }

  /**
   * `Item.created_by` is `on_delete=SET_NULL`: deleting a user keeps every item and clears
   * the creator of exactly the items that user created.
   */
  function ItemsAfterUserDelete(items: map<nat, Item>, user: UserId): (r: map<nat, Item>)
    ensures r.Keys == items.Keys
    ensures forall k :: k in r ==> r[k].createdBy != Some(user)
    ensures forall k :: k in r && items[k].createdBy == Some(user) ==> r[k].createdBy == None
    ensures forall k :: k in r && items[k].createdBy != Some(user) ==> r[k] == items[k]
    ensures forall k :: k in r ==> r[k] == items[k].(createdBy := r[k].createdBy)
  {
    map k | k in items :: if items[k].createdBy == Some(user) then items[k].(createdBy := None) else items[k]
  }
}

/**
 * The rows the ORM keeps: users, items and item images, with auto-incremented primary
 * keys and the foreign-key rules of the two models.
 */
module Catalog {

  import opened Wrappers
  import opened Files
  import opened Models

  class Database {
    var users: set<UserId>
    var items: map<nat, Item>
    var images: map<nat, ItemImage>
    var nextItemId: nat
    var nextImageId: nat

    /** Keys match the stored ids, are below the counters, and every foreign key points at a row. */
    ghost predicate Valid()
      reads this
    {
      && (forall k :: k in items ==> items[k].id == k && k < nextItemId)
      && (forall k :: k in items && items[k].createdBy.Some? ==> items[k].createdBy.value in users)
      && (forall k :: k in images ==> images[k].id == k && k < nextImageId)
      && (forall k :: k in images ==> images[k].item in items)
    }

    constructor (accounts: set<UserId>)
      ensures Valid()
      ensures users == accounts && items == map[] && images == map[]
    {
      users := accounts;
      items := map[];
      images := map[];
      nextItemId := 1;
      nextImageId := 1;
    }

    /** `item.save()` on a new item: it is stored under the next primary key. */
    method SaveItem(item: Item) returns (id: nat)
      requires Valid()
      requires item.createdBy.Some? ==> item.createdBy.value in users
      modifies this
      ensures Valid()
      ensures id == old(nextItemId) && id !in old(items)
      ensures items == old(items)[id := item.(id := id)]
      ensures users == old(users) && images == old(images)
      ensures nextItemId == id + 1 && nextImageId == old(nextImageId)
    {
      id := nextItemId;
      items := items[id := item.(id := id)];
      nextItemId := nextItemId + 1;
    }

    /** `image.save()` on a new image of a stored item. */
    method SaveImage(image: ItemImage) returns (id: nat)
      requires Valid()
      requires image.item in items
      modifies this
      ensures Valid()
      ensures id == old(nextImageId) && id !in old(images)
      ensures images == old(images)[id := image.(id := id)]
      ensures users == old(users) && items == old(items)
      ensures nextImageId == id + 1 && nextItemId == old(nextItemId)
    {
      id := nextImageId;
      images := images[id := image.(id := id)];
      nextImageId := nextImageId + 1;
    }

    /** `item.delete()`: the item goes, and so do its images (CASCADE). */
    method DeleteItem(id: nat)
      requires Valid()
      modifies this
      ensures Valid()
      ensures items == old(items) - {id}
      ensures images == ImagesAfterItemDelete(old(images), id)
      ensures users == old(users) && nextItemId == old(nextItemId) && nextImageId == old(nextImageId)
    {
      items := items - {id};
      images := ImagesAfterItemDelete(images, id);
    }

    /** `user.delete()`: the user goes; the items they created stay, with no creator (SET_NULL). */
    method DeleteUser(user: UserId)
      requires Valid()
      modifies this
      ensures Valid()
      ensures users == old(users) - {user}
      ensures items == ItemsAfterUserDelete(old(items), user)
      ensures images == old(images) && nextItemId == old(nextItemId) && nextImageId == old(nextImageId)
    {
      users := users - {user};
      items := ItemsAfterUserDelete(items, user);
    }
  }
}

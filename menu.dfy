/** `src/menu/menu.service.ts`: the menus shown on the home screen, each with
    an image on the host and an on/off `status`. */
module Menus {
  import opened Responses
  import opened Entities
  import opened Tables
  import opened FileOperation

  const MenuNotFound := "Menu not found"
  const MenuFolder := "menu"

  /** `CreateMenuDto`: the description is optional in the DTO although the
      column is NOT NULL. */
  datatype MenuInput = MenuInput(title: string, description: Option<string>, colorCode: string)

  /** `UpdateMenuDto`: every field optional. */
  datatype MenuPatch = MenuPatch(title: Option<string>, description: Option<string>, colorCode: Option<string>)

  /** `{ ...menu, ...dto, imageUrl }`: the patch's fields over the row. */
  function MergeMenu(menu: Menu, patch: MenuPatch, imageUrl: string): (merged: Menu)
  {
    Menu(if patch.title.Some? then patch.title.value else menu.title,
         imageUrl,
         if patch.description.Some? then patch.description.value else menu.description,
         if patch.colorCode.Some? then patch.colorCode.value else menu.colorCode,
         menu.status)
  }

  /** The menus `findAll` lists. */
  function ActiveMenus(rows: map<nat, Menu>): map<nat, Menu>
  {
    Where(rows, (m: Menu) => m.status)
  }

  /** The table after `changeStatus(id)` of an existing menu. */
  function StatusFlipped(rows: map<nat, Menu>, id: nat): map<nat, Menu>
    requires id in rows
  {
    rows[id := rows[id].(status := !rows[id].status)]
  }

  /** Changing the status twice restores the table. */
  lemma ChangeStatusTwiceRestores(rows: map<nat, Menu>, id: nat)
    requires id in rows
    ensures StatusFlipped(StatusFlipped(rows, id), id) == rows
  {
    assert StatusFlipped(rows, id)[id].(status := !StatusFlipped(rows, id)[id].status) == rows[id];
  }

  /** Changing a menu's status moves it into or out of the `findAll` listing,
      and no other menu's presence there changes. */
  lemma ChangeStatusMovesMenu(rows: map<nat, Menu>, id: nat)
    requires id in rows
    ensures id in ActiveMenus(StatusFlipped(rows, id)) <==> id !in ActiveMenus(rows)
    ensures forall other :: other != id ==> (other in ActiveMenus(StatusFlipped(rows, id)) <==> other in ActiveMenus(rows))
  {
  }

  /** A merge keeps every field the patch leaves out and the status. */
  lemma MergeKeepsAbsentFields(menu: Menu, patch: MenuPatch, imageUrl: string)
    ensures var merged := MergeMenu(menu, patch, imageUrl);
      && merged.status == menu.status && merged.imageUrl == imageUrl
      && (patch.title.None? ==> merged.title == menu.title)
      && (patch.description.None? ==> merged.description == menu.description)
      && (patch.colorCode.None? ==> merged.colorCode == menu.colorCode)
      && (patch.title.Some? ==> merged.title == patch.title.value)
      && (patch.description.Some? ==> merged.description == patch.description.value)
      && (patch.colorCode.Some? ==> merged.colorCode == patch.colorCode.value)
  {
  }

  class MenuService {
    const menus: Table<Menu>
    const host: ImageHost

    constructor (menus: Table<Menu>, host: ImageHost)
      ensures this.menus == menus && this.host == host
    {
      this.menus := menus;
      this.host := host;
    }

    /** `create`: the image is uploaded first; a menu without a description is
        then refused by the NOT NULL column, with the image left on the host. */
    method Create(input: MenuInput, file: MulterFile, version: nat) returns (r: Result<Menu>)
      requires menus.Valid()
      modifies menus, host
      ensures menus.Valid()
      ensures host.assets == old(host.assets) + {AssetId(MenuFolder, file.originalName)}
      ensures input.description.None? ==> r == Err(Failure(NotNullViolation)) && menus.rows == old(menus.rows)
      ensures input.description.Some? ==> r.Ok? && old(menus.next) !in old(menus.rows)
      ensures r.Ok? ==> r.value == Menu(input.title, DeliveryUrl(version, MenuFolder, file.originalName), input.description.value, input.colorCode, true)
      ensures r.Ok? ==> menus.rows == old(menus.rows)[old(menus.next) := r.value]
    {
      var imageUrl := UploadFile(host, Some(file.originalName), MenuFolder, version);
      if input.description.None? {
        return Err(Failure(NotNullViolation));
      }
      var menu := Menu(input.title, imageUrl.value, input.description.value, input.colorCode, true);
      var _ := menus.Insert(menu);
      r := Ok(menu);
    }

    /** `findAll`: exactly the menus whose status is true. */
    method FindAll() returns (listed: map<nat, Menu>)
      ensures forall id :: id in listed <==> id in menus.rows && menus.rows[id].status
      ensures forall id :: id in listed ==> listed[id] == menus.rows[id]
      ensures listed == ActiveMenus(menus.rows)
    {
      listed := map id | id in menus.rows && menus.rows[id].status :: menus.rows[id];
    }

    method FindOne(id: nat) returns (r: Result<Menu>)
      ensures r.Ok? <==> id in menus.rows
      ensures r.Ok? ==> r.value == menus.rows[id]
      ensures r.Err? ==> r.error == NotFound(MenuNotFound)
    {
      var menu := menus.Get(id);
      if menu.None? {
        return Err(NotFound(MenuNotFound));
      }
      r := Ok(menu.value);
    }

    /** `update`: with a file, the old image is deleted (with no check that
        there is one) and the new one uploaded; the patch is merged over the row. */
    method Update(id: nat, patch: MenuPatch, file: Option<MulterFile>, version: nat) returns (r: Result<Menu>)
      requires menus.Valid()
      modifies menus, host
      ensures menus.Valid() && menus.next == old(menus.next)
      ensures id !in old(menus.rows) ==> r == Err(NotFound(MenuNotFound))
      ensures id !in old(menus.rows) || file.None? ==> host.assets == old(host.assets)
      ensures r.Err? ==> menus.rows == old(menus.rows)
      ensures id in old(menus.rows) && file.Some? ==>
        var (image, assets) := Replacement(old(host.assets), old(menus.rows)[id].imageUrl, false, Some(file.value.originalName), MenuFolder, version);
        host.assets == assets && (r.Err? <==> image.Err?) && (r.Ok? ==> r.value.imageUrl == image.value)
      ensures id in old(menus.rows) && file.None? ==> r.Ok? && r.value.imageUrl == old(menus.rows)[id].imageUrl
      ensures r.Ok? ==> id in old(menus.rows) && r.value == MergeMenu(old(menus.rows)[id], patch, r.value.imageUrl)
      ensures r.Ok? ==> menus.rows == old(menus.rows)[id := r.value]
    {
      var menu := menus.Get(id);
      if menu.None? {
        return Err(NotFound(MenuNotFound));
      }
      var imageUrl := menu.value.imageUrl;
      if file.Some? {
        var uploaded := ReplaceFile(host, imageUrl, false, Some(file.value.originalName), MenuFolder, version);
        if uploaded.Err? {
          return Err(uploaded.error);
        }
        imageUrl := uploaded.value;
      }
      var updated := MergeMenu(menu.value, patch, imageUrl);
      menus.Put(id, updated);
      r := Ok(updated);
    }

    /** `remove`: the image is deleted if there is one, then exactly that row. */
    method Remove(id: nat) returns (r: Result<()>)
      requires menus.Valid()
      modifies menus, host
      ensures menus.Valid() && menus.next == old(menus.next)
      ensures id !in old(menus.rows) ==> r == Err(NotFound(MenuNotFound)) && host.assets == old(host.assets)
      ensures id in old(menus.rows) && old(menus.rows)[id].imageUrl == "" ==> r.Ok? && host.assets == old(host.assets)
      ensures id in old(menus.rows) && old(menus.rows)[id].imageUrl != "" ==>
        r == DeleteResult(old(menus.rows)[id].imageUrl) && host.assets == Destroyed(old(host.assets), old(menus.rows)[id].imageUrl)
      ensures r.Ok? ==> menus.rows == old(menus.rows) - {id}
      ensures r.Err? ==> menus.rows == old(menus.rows)
    {
      var menu := menus.Get(id);
      if menu.None? {
        return Err(NotFound(MenuNotFound));
      }
      if menu.value.imageUrl != "" {
        var deleted := DeleteFile(host, menu.value.imageUrl);
        if deleted.Err? {
          return Err(deleted.error);
        }
      }
      menus.Delete(id);
      r := Ok(());
    }

    /** `changeStatus`: only the status of that menu changes. */
    method ChangeStatus(id: nat) returns (r: Result<()>)
      requires menus.Valid()
      modifies menus
      ensures menus.Valid() && menus.next == old(menus.next)
      ensures r.Ok? <==> id in old(menus.rows)
      ensures r.Err? ==> r.error == NotFound(MenuNotFound) && menus.rows == old(menus.rows)
      ensures r.Ok? ==> menus.rows == StatusFlipped(old(menus.rows), id)
    {
      var menu := menus.Get(id);
      if menu.None? {
        return Err(NotFound(MenuNotFound));
      }
      menus.Put(id, menu.value.(status := !menu.value.status));
      r := Ok(());
    }
  }
}

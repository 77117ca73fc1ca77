/** `src/user/user.service.ts`: the profile of the logged-in user and their
    delivery addresses. */
module Users {
  import opened Responses
  import opened Entities
  import opened Tables
  import opened FileOperation

  const UserNotFound := "User not found"
  const AddressNotFound := "Address not found"
  const ProfileFolder := "User"

  /** `UpdateUserDto`: every field optional. */
  datatype ProfilePatch = ProfilePatch(email: Option<string>, fullName: Option<string>, phoneNumber: Option<string>)

  /** `AddUserAddressDto`, after validation: the coordinates are numbers. */
  datatype AddressInput = AddressInput(kind: string, house: string, area: string, landmark: string, latitude: real, longitude: real)

  /** `UpdateUserAddressDto`: every field optional. */
  datatype AddressPatch = AddressPatch(
    kind: Option<string>, house: Option<string>, area: Option<string>, landmark: Option<string>,
    latitude: Option<real>, longitude: Option<real>)

  function Or<T>(given: Option<T>, current: T): T
  {
    if given.Some? then given.value else current
  }

  /** `update(userId, { ...dto, imageUrl })`: fields the patch leaves undefined
      keep their value, `imageUrl` is always written. */
  function MergeProfile(user: User, patch: ProfilePatch, imageUrl: string): User
  {
    user.(email := Or(patch.email, user.email),
          fullName := Or(patch.fullName, user.fullName),
          phoneNumber := if patch.phoneNumber.Some? then patch.phoneNumber else user.phoneNumber,
          imageUrl := imageUrl)
  }

  /** `update({ id }, { ...dto, latitude: Number(dto.latitude), longitude: Number(dto.longitude) })`. */
  function MergeAddress(address: Address, patch: AddressPatch): Address
  {
    address.(kind := Or(patch.kind, address.kind),
             house := Or(patch.house, address.house),
             area := Or(patch.area, address.area),
             landmark := Or(patch.landmark, address.landmark),
             latitude := ToNumber(patch.latitude),
             longitude := ToNumber(patch.longitude))
  }

  /** `updateProfile` on the user rows and the image host's holdings, taking
      the uploaded file's `filename` as the public-id source, as the code does. */
  function ProfileOutcome(rows: map<nat, User>, assets: set<string>, userId: nat, patch: ProfilePatch,
                          file: Option<MulterFile>, version: nat): (Result<User>, map<nat, User>, set<string>)
  {
    if userId !in rows then (Err(NotFound(UserNotFound)), rows, assets)
    else ProfileWrite(rows, assets, userId, patch, if file.Some? then Some(file.value.fileName) else None, version)
  }

  /** The part of `updateProfile` after the lookup, given the name the upload
      receives, if a file came with the request. */
  function ProfileWrite(rows: map<nat, User>, assets: set<string>, userId: nat, patch: ProfilePatch,
                        upload: Option<Option<string>>, version: nat): (Result<User>, map<nat, User>, set<string>)
    requires userId in rows
  {
    var user := rows[userId];
    var (image, assets') :=
      if upload.Some? then Replacement(assets, user.imageUrl, true, upload.value, ProfileFolder, version)
      else (Ok(""), assets);
    if image.Err? then (Err(image.error), rows, assets')
    else
      var updated := MergeProfile(user, patch, image.value);
      if Clashes(rows, userId, updated) then (Err(Failure(UniqueViolation)), rows, assets')
      else (Ok(updated), rows[userId := updated], assets')
  }

  /** `updateProfile` as evidently intended: the public id comes from the
      file's `originalname`, as in every other service. */
  function ProfileOutcomeByOriginalName(rows: map<nat, User>, assets: set<string>, userId: nat, patch: ProfilePatch,
                                        file: Option<MulterFile>, version: nat): (Result<User>, map<nat, User>, set<string>)
  {
    if userId !in rows then (Err(NotFound(UserNotFound)), rows, assets)
    else ProfileWrite(rows, assets, userId, patch, if file.Some? then Some(Some(file.value.originalName)) else None, version)
  }

  lemma ProfileOfMissingUser(rows: map<nat, User>, assets: set<string>, userId: nat, patch: ProfilePatch,
                             file: Option<MulterFile>, version: nat)
    requires userId !in rows
    ensures ProfileOutcome(rows, assets, userId, patch, file, version) == (Err(NotFound(UserNotFound)), rows, assets)
  {
  }

  /** Without a file the stored image URL is overwritten with the empty string
      (the image stays on the host): a patch the unique constraints admit is
      merged, and only that row changes. */
  lemma ProfileWithoutFileClearsImage(rows: map<nat, User>, assets: set<string>, userId: nat, patch: ProfilePatch, version: nat)
    requires userId in rows
    requires !Clashes(rows, userId, MergeProfile(rows[userId], patch, ""))
    ensures var (r, rows', assets') := ProfileOutcome(rows, assets, userId, patch, None, version);
      && r == Ok(MergeProfile(rows[userId], patch, ""))
      && r.value.imageUrl == ""
      && rows' == rows[userId := r.value] && assets' == assets
  {
  }

  /** A patch that would give the user another user's email is refused by the
      unique constraint, with the table unchanged. */
  lemma ProfileEmailClash(rows: map<nat, User>, assets: set<string>, userId: nat, other: nat, patch: ProfilePatch, version: nat)
    requires userId in rows && other in rows && other != userId
    requires patch.email == Some(rows[other].email)
    ensures var (r, rows', assets') := ProfileOutcome(rows, assets, userId, patch, None, version);
      r == Err(Failure(UniqueViolation)) && rows' == rows && assets' == assets
  {
    assert Clashes(rows, userId, MergeProfile(rows[userId], patch, ""));
  }

  /** With a file, the old image is deleted only when there is one, and then
      whatever the upload yields decides the call. With the file name multer's
      memory storage provides (none), the upload always fails, after the old
      image has already been deleted. */
  lemma ProfileImageAsWritten(rows: map<nat, User>, assets: set<string>, userId: nat, patch: ProfilePatch, original: string,
                              version: nat)
    requires userId in rows
    requires rows[userId].imageUrl != "" ==> ExtractPublicId(rows[userId].imageUrl).Ok?
    ensures var (r, rows', assets') := ProfileOutcome(rows, assets, userId, patch, Some(MulterFile(original, None)), version);
      && r == Err(Failure(UploadFailed)) && rows' == rows
      && assets' == (if rows[userId].imageUrl == "" then assets else Destroyed(assets, rows[userId].imageUrl))
  {
  }

  /** With the original name, a file replaces the profile image: whenever the
      unique constraints admit the merged row, the id extracted from the old URL
      is destroyed if that URL is set, and the patch is merged with the URL the
      upload returns. */
  lemma ProfileImageByOriginalName(rows: map<nat, User>, assets: set<string>, userId: nat, patch: ProfilePatch, file: MulterFile,
                                   version: nat)
    requires userId in rows
    requires !Clashes(rows, userId, MergeProfile(rows[userId], patch, DeliveryUrl(version, ProfileFolder, file.originalName)))
    requires rows[userId].imageUrl != "" ==> ExtractPublicId(rows[userId].imageUrl).Ok?
    ensures var (r, rows', assets') := ProfileOutcomeByOriginalName(rows, assets, userId, patch, Some(file), version);
      var previous := rows[userId].imageUrl;
      && r == Ok(MergeProfile(rows[userId], patch, DeliveryUrl(version, ProfileFolder, file.originalName)))
      && r.value.imageUrl == DeliveryUrl(version, ProfileFolder, file.originalName)
      && rows' == rows[userId := r.value]
      && assets' == (if previous == "" then assets else Destroyed(assets, previous)) + {AssetId(ProfileFolder, file.originalName)}
  {
  }

  /** `addUserAddress`: a new address row linked to the user. */
  function AddAddressOutcome(users: map<nat, User>, addresses: map<nat, Address>, next: nat, userId: nat,
                             input: AddressInput): (Result<Address>, map<nat, Address>)
  {
    if userId !in users then (Err(NotFound(UserNotFound)), addresses)
    else
      var address := Address(input.kind, input.house, input.area, input.landmark,
                             Num(input.latitude), Num(input.longitude), userId);
      (Ok(address), addresses[next := address])
  }

  /** `updateAddress`: the user is checked first, then the address; the address
      need not belong to that user. */
  function UpdateAddressOutcome(users: map<nat, User>, addresses: map<nat, Address>, addressId: nat, userId: nat,
                                patch: AddressPatch): (Result<Address>, map<nat, Address>)
  {
    if userId !in users then (Err(NotFound(UserNotFound)), addresses)
    else if addressId !in addresses then (Err(NotFound(AddressNotFound)), addresses)
    else
      var updated := MergeAddress(addresses[addressId], patch);
      (Ok(updated), addresses[addressId := updated])
  }

  /** The user check comes first: a missing user is reported as such even when
      the address is missing too. */
  lemma UpdateAddressChecksUserFirst(users: map<nat, User>, addresses: map<nat, Address>, addressId: nat, userId: nat, patch: AddressPatch)
    ensures var (r, addresses') := UpdateAddressOutcome(users, addresses, addressId, userId, patch);
      && (userId !in users ==> r == Err(NotFound(UserNotFound)))
      && (userId in users && addressId !in addresses ==> r == Err(NotFound(AddressNotFound)))
      && (r.Err? ==> addresses' == addresses)
  {
  }

  /** Any existing user may update any existing address, also one linked to
      someone else; the link is kept, and only that row changes. Coordinates the
      patch leaves out become NaN. */
  lemma UpdateAnyonesAddress(users: map<nat, User>, addresses: map<nat, Address>, addressId: nat, userId: nat, patch: AddressPatch)
    requires userId in users && addressId in addresses
    ensures var (r, addresses') := UpdateAddressOutcome(users, addresses, addressId, userId, patch);
      && r.Ok? && r.value.userId == addresses[addressId].userId
      && addresses'.Keys == addresses.Keys
      && (forall id :: id in addresses && id != addressId ==> addresses'[id] == addresses[id])
      && (patch.latitude.None? ==> addresses'[addressId].latitude == NaN)
      && (patch.longitude.None? ==> addresses'[addressId].longitude == NaN)
      && (patch.house.None? ==> addresses'[addressId].house == addresses[addressId].house)
  {
  }

  class UserService {
    const users: Table<User>
    const addresses: Table<Address>
    const host: ImageHost

    ghost predicate Valid()
      reads this, users, addresses
    {
      users.Valid() && addresses.Valid() && UsersUnique(users.rows)
    }

    constructor (users: Table<User>, addresses: Table<Address>, host: ImageHost)
      requires users.Valid() && addresses.Valid() && UsersUnique(users.rows)
      ensures Valid() && this.users == users && this.addresses == addresses && this.host == host
    {
      this.users := users;
      this.addresses := addresses;
      this.host := host;
    }

    method GetProfile(userId: nat) returns (r: Result<User>)
      ensures r.Ok? <==> userId in users.rows
      ensures r.Ok? ==> r.value == users.rows[userId]
      ensures r.Err? ==> r.error == NotFound(UserNotFound)
    {
      var user := users.Get(userId);
      if user.None? {
        return Err(NotFound(UserNotFound));
      }
      r := Ok(user.value);
    }

    method UpdateProfile(userId: nat, patch: ProfilePatch, file: Option<MulterFile>, version: nat) returns (r: Result<User>)
      requires Valid()
      modifies users, host
      ensures Valid() && users.next == old(users.next)
      ensures (r, users.rows, host.assets) == ProfileOutcome(old(users.rows), old(host.assets), userId, patch, file, version)
    {
      var user := users.Get(userId);
      if user.None? {
        return Err(NotFound(UserNotFound));
      }
      var imageUrl := "";
      if file.Some? {
        var uploaded := ReplaceFile(host, user.value.imageUrl, true, file.value.fileName, ProfileFolder, version);
        if uploaded.Err? {
          return Err(uploaded.error);
        }
        imageUrl := uploaded.value;
      }
      var updated := MergeProfile(user.value, patch, imageUrl);
      if Clashes(users.rows, userId, updated) {
        return Err(Failure(UniqueViolation));
      }
      WriteKeepsUnique(users.rows, userId, updated);
      users.Put(userId, updated);
      r := Ok(updated);
    }

    method AddUserAddress(userId: nat, input: AddressInput) returns (r: Result<Address>)
      requires Valid()
      modifies addresses
      ensures Valid() && users.rows == old(users.rows)
      ensures addresses.next == old(addresses.next) + (if r.Ok? then 1 else 0)
      ensures (r, addresses.rows) == AddAddressOutcome(users.rows, old(addresses.rows), old(addresses.next), userId, input)
    {
      var user := users.Get(userId);
      if user.None? {
        return Err(NotFound(UserNotFound));
      }
      var address := Address(input.kind, input.house, input.area, input.landmark,
                             Num(input.latitude), Num(input.longitude), userId);
      var _ := addresses.Insert(address);
      r := Ok(address);
    }

    method UpdateAddress(addressId: nat, userId: nat, patch: AddressPatch) returns (r: Result<Address>)
      requires Valid()
      modifies addresses
      ensures Valid() && addresses.next == old(addresses.next)
      ensures (r, addresses.rows) == UpdateAddressOutcome(users.rows, old(addresses.rows), addressId, userId, patch)
    {
      var user := users.Get(userId);
      var address := addresses.Get(addressId);
      if user.None? {
        return Err(NotFound(UserNotFound));
      }
      if address.None? {
        return Err(NotFound(AddressNotFound));
      }
      var updated := MergeAddress(address.value, patch);
      addresses.Put(addressId, updated);
      r := Ok(updated);
    }
  }
}

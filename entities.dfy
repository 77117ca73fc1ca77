/** The rows of the tables the services work on, with the column defaults of the
    entity files, and the database constraints that matter to them. */
module Entities {
  import opened Responses
  import opened Bcrypt
  import opened Jwt

  datatype Role = ADMIN | USER

  /** A user row. `imageUrl` is "" where the column holds null or the empty
      string, both of which the services treat alike. */
  datatype User = User(
    fullName: string,
    email: string,
    phoneNumber: Option<string>,
    role: Role,
    imageUrl: string,
    password: Digest,
    refreshToken: Option<Token>)

  /** The row `userRepo.create({ fullName, email, password })` makes: every other
      column takes its default. */
  function NewUser(fullName: string, email: string, password: Digest): User
  {
    User(fullName, email, None, USER, "", password, None)
  }

  /** The unique constraints on `email` and on `phoneNumber` (null exempt). */
  predicate UsersUnique(rows: map<nat, User>)
  {
    && (forall a, b :: a in rows && b in rows && a != b ==> rows[a].email != rows[b].email)
    && (forall a, b :: a in rows && b in rows && a != b && rows[a].phoneNumber.Some? ==>
          rows[a].phoneNumber != rows[b].phoneNumber)
  }

  /** Writing `user` under key `id` would break a unique constraint. */
  predicate Clashes(rows: map<nat, User>, id: nat, user: User)
  {
    exists other :: other in rows && other != id &&
      (rows[other].email == user.email || (user.phoneNumber.Some? && rows[other].phoneNumber == user.phoneNumber))
  }

  /** A write the constraints admit keeps the table consistent. */
  lemma WriteKeepsUnique(rows: map<nat, User>, id: nat, user: User)
    requires UsersUnique(rows) && !Clashes(rows, id, user)
    ensures UsersUnique(rows[id := user])
  {
  }

  /** A JavaScript number: the coordinates are `Number(...)` of the input, which
      is NaN for a missing value. Other numbers are kept as exact reals. */
  datatype Number = NaN | Num(value: real)

  function ToNumber(x: Option<real>): Number
  {
    if x.Some? then Num(x.value) else NaN
  }

  datatype Address = Address(
    kind: string,
    house: string,
    area: string,
    landmark: string,
    latitude: Number,
    longitude: Number,
    userId: nat)

  datatype Category = Category(name: string)

  /** A menu row; `status` defaults to true. */
  datatype Menu = Menu(title: string, imageUrl: string, description: string, colorCode: string, status: bool)

  datatype FoodType = VEG | OtherType(name: string)

  /** A product row; `rating` defaults to 0, `type` to VEG, `available` to true. */
  datatype Product = Product(
    name: string,
    price: real,
    imageUrl: string,
    description: string,
    rating: real,
    tags: seq<string>,
    foodType: FoodType,
    available: bool,
    categoryId: nat)

  /** A topping row; `available` defaults to true. */
  datatype Topping = Topping(name: string, price: real, imageUrl: string, available: bool, productId: nat)

  /** A side-option row; `available` defaults to true. */
  datatype SideOption = SideOption(name: string, price: real, imageUrl: string, available: bool, productId: nat)

  /** What multer hands a handler for an uploaded file. Under memory storage,
      which every controller configures, `filename` is not set. */
  datatype MulterFile = MulterFile(originalName: string, fileName: Option<string>)
}

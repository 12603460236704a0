/** The rows of the database tables the core reads and writes (Prisma models User,
    ServiceProvider, Service, Booking and GalleryImage), reduced to the fields the routes use.
    Times are integer milliseconds; identifiers are the parsed integers. */
module Rows {
  import opened Common

  datatype Role = Client | ServiceProvider | Admin

  /** The enum value as it appears in tokens and headers. */
  function RoleName(r: Role): string
  {
    match r
    case Client => "CLIENT"
    case ServiceProvider => "SERVICE_PROVIDER"
    case Admin => "ADMIN"
  }

  datatype User = User(
    id: int,
    email: string,
    password: string,          // the stored bcrypt hash
    name: string,
    role: Role,
    dateOfBirth: Option<int>,
    phone: Option<string>,
    profileColor: string,
    profileImage: Option<string>,
    status: string)

  datatype Provider = Provider(
    id: int,
    userId: int,
    ethnicity: Option<string>,
    hairColor: Option<string>,
    experienceYears: Option<int>,
    certifications: Option<string>,
    specialties: Option<string>,
    address: Option<string>)

  datatype Service = Service(
    id: int,
    providerId: int,
    name: string,
    description: string,
    price: string,             // the submitted text; `parseFloat` is not modelled
    duration: int,             // minutes
    calendarColor: Option<string>,
    status: string)

  datatype Booking = Booking(id: int, userId: int, serviceId: int, providerId: int, date: int, status: string)

  datatype GalleryImage = GalleryImage(id: int, providerId: int, filename: Option<string>, createdAt: int)

  /** A user as the routes return it: every selected column except the password. */
  datatype PublicUser = PublicUser(
    id: int,
    email: string,
    name: string,
    role: Role,
    dateOfBirth: Option<int>,
    phone: Option<string>,
    profileColor: string,
    profileImage: Option<string>,
    status: string)

  function Public(u: User): PublicUser
  {
    PublicUser(u.id, u.email, u.name, u.role, u.dateOfBirth, u.phone, u.profileColor, u.profileImage, u.status)
  }

  // Keys the lookups and filters are written with.
  function UserId(u: User): int { u.id }
  function UserEmail(u: User): string { u.email }
  function ProviderUserId(p: Provider): int { p.userId }
  function ServiceId(s: Service): int { s.id }
}

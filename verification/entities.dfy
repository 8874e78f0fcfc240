/** The records of the tool-sharing application and the seeded reference values. */
module Entities {
  import opened Wrappers

  /** Primary keys. The ORM generates unique ids; the store here mints them from a counter. */
  type Id = nat

  /** A timestamp (`new Date()`), supplied by the caller as an opaque value. */
  type Time = nat

  /** The member permissions seeded as reference data. */
  datatype Permission = Admin | Member

  /** The invitation statuses seeded as reference data. */
  datatype InvitationStatus = Open | Accepted | Rejected | Expired

  datatype User = User(id: Id, email: string, firstName: string, lastName: string, postcode: string)

  /** What bcrypt produces from a password; a plaintext password is never one of these. */
  datatype PasswordHash = PasswordHash(digest: string)

  datatype Community = Community(id: Id, name: string, createdAt: Time)

  /** The join row between a user and a community. Nothing makes (userId, communityId) unique. */
  datatype MemberRow = MemberRow(userId: Id, communityId: Id, permission: Permission)

  datatype Invitation = Invitation(
    id: Id,
    communityId: Id,
    userEmail: string,
    status: InvitationStatus,
    createdAt: Time,
    lastUpdatedAt: Time)

  datatype Tool = Tool(
    id: Id,
    name: string,
    description: string,
    subCategoryId: string,
    userId: Id,
    imageUrl: Option<string>,
    createdAt: Time)

  /** Static reference data: a category of tools. */
  datatype Category = Category(id: string, name: string)

  /** Static reference data: a subcategory belongs to one category. */
  datatype SubCategory = SubCategory(id: string, name: string, categoryId: string)
}

/** The records the devices report reads: users, devices, and a user paired with the devices it may see. */
module ReportModel {

  /** Database ids are Java `long`s; the model never does arithmetic on them. */
  type Id = int

  datatype User = User(id: Id, email: string, administrator: bool)

  datatype Device = Device(id: Id, name: string)

  /** `UserDeviceItem`: one user and the devices fetched for it, in the order storage returned them. */
  datatype UserDeviceItem = UserDeviceItem(user: User, devices: seq<Device>)
}

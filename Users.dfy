/**
 * The signed-in user object the server returns and the components read.
 * A property the object lacks is the empty string: every component only
 * tests these fields for truthiness or compares them with non-empty
 * constants, where a missing property and "" behave alike.
 */
module Users {

  datatype User = User(username: string, role: string, baseName: string)

  const Admin := "admin"
  const BaseCommander := "base_commander"
  const LogisticsOfficer := "logistics_officer"
}

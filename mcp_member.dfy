/** One row of a Beta-era MCP `fields.csv` or `methods.csv`, a plain bean without logic. */
module McpMember {

  datatype McpMember = McpMember(
    searge: string,
    name: string,
    notch: string,
    sig: string,
    notchsig: string,
    classname: string,
    classnotch: string,
    packageName: string,
    side: int)
}

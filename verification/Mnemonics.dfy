/**
 The names of the instructions, as the disassembler prints them. JSL is never printed: the long call is a
 JSR in the long format.
 */
module Mnemonics {
  datatype Name =
    | ADC | AND | ASL | BCC | BCS | BEQ | BIT | BMI | BNE | BPL | BRA | BRK | BRL
    | BVC | BVS | CLC | CLD | CLI | CLV | CMP | COP | CPX | CPY | DEC | DEX | DEY
    | EOR | INC | INX | INY | JMP | JSL | JSR | LDA | LDX | LDY | LSR | MVN | MVP
    | NOP | ORA | PEA | PEI | PER | PHA | PHB | PHD | PHK | PHP | PHX | PHY | PLA
    | PLB | PLD | PLP | PLX | PLY | REP | ROL | ROR | RTI | RTL | RTS | SBC | SEC
    | SED | SEI | SEP | STA | STP | STX | STY | STZ | TAX | TAY | TCD | TCS | TDC
    | TRB | TSB | TSC | TSX | TXA | TXS | TXY | TYA | TYX | WAI | WDM | XBA | XCE
}
